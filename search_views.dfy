/** The sort-and-filter views: building the form data, looking up the
    object being filtered on, the canonical-URL redirect and the context
    (localtv/search/views.py). */
module SearchViews {
  import opened Common
  import opened Strings

  /** A value in the form's data dict: a query-string value, the one-item
      list a model filter expects, or None. */
  datatype FormValue = Text(s: string) | Items(items: seq<Option<string>>) | NoValue

  type FormData = map<string, FormValue>

  /** The filter fields of SearchForm that are ModelFilterFields (the tag
      field is one too); 'featured' is not. */
  predicate IsModelFilter(name: string) {
    name in {"tag", "category", "author", "playlist", "feed"}
  }

  /** A view's class attributes: the enforced filter and sort, and the URL
      kwarg that carries the filter value. */
  datatype ViewConfig = ViewConfig(filterName: Option<string>, sort: Option<string>, filterKwarg: string)

  /** SortFilterMixin.get_form_data: `base_data or {}`, then the enforced
      filter value and the enforced sort overwrite whatever was there. */
  function GetFormData(cfg: ViewConfig, base: Option<FormData>, filterValue: FormValue): (data: FormData)
    ensures cfg.filterName.Some? && !(cfg.filterName.value == "sort" && cfg.sort.Some?) ==>
              cfg.filterName.value in data && data[cfg.filterName.value] == filterValue
    ensures cfg.sort.Some? ==> "sort" in data && data["sort"] == Text(cfg.sort.value)
    ensures forall k :: k in data <==>
              (base.Some? && k in base.value) || Some(k) == cfg.filterName || (k == "sort" && cfg.sort.Some?)
    ensures forall k :: k in data && Some(k) != cfg.filterName && !(k == "sort" && cfg.sort.Some?) ==>
              base.Some? && data[k] == base.value[k]
  {
    var data := if base.Some? then base.value else map[];
    var data := if cfg.filterName.Some? then data[cfg.filterName.value := filterValue] else data;
    if cfg.sort.Some? then data["sort" := Text(cfg.sort.value)] else data
  }

  /** Feeding the form data back in changes nothing: the enforced values
      are already in place. */
  lemma GetFormDataIdempotent(cfg: ViewConfig, base: Option<FormData>, filterValue: FormValue)
    ensures GetFormData(cfg, Some(GetFormData(cfg, base, filterValue)), filterValue) == GetFormData(cfg, base, filterValue)
  {
  }

  /** The filter value get_queryset passes on: the URL kwarg, wrapped in a
      one-item list for a model filter; None without an enforced filter. */
  function FilterValue(cfg: ViewConfig, kwargs: map<string, string>): (v: FormValue)
    ensures cfg.filterName.None? ==> v == NoValue
    ensures cfg.filterName.Some? && IsModelFilter(cfg.filterName.value) ==>
              v == Items([if cfg.filterKwarg in kwargs then Some(kwargs[cfg.filterKwarg]) else None])
    ensures cfg.filterName.Some? && !IsModelFilter(cfg.filterName.value) ==>
              v == (if cfg.filterKwarg in kwargs then Text(kwargs[cfg.filterKwarg]) else NoValue)
  {
    if cfg.filterName.None? then NoValue
    else
      var raw := if cfg.filterKwarg in kwargs then Some(kwargs[cfg.filterKwarg]) else None;
      if IsModelFilter(cfg.filterName.value) then Items([raw])
      else if raw.Some? then Text(raw.value) else NoValue
  }

  /** An object a view filters on: a category, a user, a playlist, a feed
      or a tag, with the fields the lookups read. `url` is the result of
      get_absolute_url, None for a model without one. */
  datatype FilterObject = FilterObject(pk: nat, name: string, slug: string, isUser: bool, url: Option<string>)

  /** `field.to_field_name or 'pk'` */
  function LookupField(filterName: string): string {
    if filterName == "tag" then "name" else if filterName == "category" then "slug" else "pk"
  }

  /** `<lookup>__iexact=value` on one object; a pk lookup converts the
      value with int(), None meaning ValueError. */
  function IExact(o: FilterObject, lookup: string, value: string): (r: Option<bool>)
    ensures lookup == "pk" ==> (r.None? <==> ParseInt(value).None?)
    ensures lookup == "name" ==> r == Some(Lower(o.name) == Lower(value))
  {
    if lookup == "pk" then
      var n := ParseInt(value);
      if n.None? then None else Some(n.value == o.pk)
    else if lookup == "name" then Some(Lower(o.name) == Lower(value))
    else Some(Lower(o.slug) == Lower(value))
  }

  /** The ways get_object fails: 404 for a malformed key or no match; a
      missing URL kwarg or several matches are not caught and escape as
      errors. */
  datatype LookupError = NotFound | MissingKwarg | MultipleObjects

  /** The objects `<lookup>__iexact=value` selects, in table order; none
      for a pk lookup on a malformed value. */
  function Matching(objects: seq<FilterObject>, lookup: string, value: string): (r: seq<FilterObject>)
    ensures forall o :: o in r <==> o in objects && IExact(o, lookup, value) == Some(true)
  {
    Filter(objects, (o: FilterObject) => IExact(o, lookup, value) == Some(true))
  }

  /** SortFilterView.get_object: None unless the view filters on a model
      field; otherwise the one object whose lookup matches the URL value
      case-insensitively, a 404 when none does (a malformed pk included),
      and an uncaught error for a missing kwarg or several matches. */
  function GetObject(cfg: ViewConfig, kwargs: map<string, string>, objects: seq<FilterObject>)
    : (r: Result<Option<FilterObject>, LookupError>)
    ensures cfg.filterName.None? || !IsModelFilter(cfg.filterName.value) ==> r == Ok(None)
    ensures cfg.filterName.Some? && IsModelFilter(cfg.filterName.value) && cfg.filterKwarg !in kwargs ==>
              r == Err(MissingKwarg)
    ensures cfg.filterName.Some? && IsModelFilter(cfg.filterName.value) && cfg.filterKwarg in kwargs ==>
              var found := Matching(objects, LookupField(cfg.filterName.value), kwargs[cfg.filterKwarg]);
              (|found| == 0 ==> r == Err(NotFound)) &&
              (|found| == 1 ==> r == Ok(Some(found[0]))) &&
              (|found| > 1 ==> r == Err(MultipleObjects))
    ensures r.Ok? && r.value.Some? ==>
              cfg.filterName.Some? && cfg.filterKwarg in kwargs && r.value.value in objects && IExact(r.value.value, LookupField(cfg.filterName.value), kwargs[cfg.filterKwarg]) == Some(true)
    ensures r == Err(NotFound) ==>
              cfg.filterKwarg in kwargs &&
              forall o :: o in objects ==> IExact(o, LookupField(cfg.filterName.value), kwargs[cfg.filterKwarg]) != Some(true)
    ensures cfg.filterName.Some? && IsModelFilter(cfg.filterName.value) && cfg.filterKwarg in kwargs &&
            (exists o :: o in objects && IExact(o, LookupField(cfg.filterName.value), kwargs[cfg.filterKwarg]) == Some(true)) ==>
              r.Ok? || r == Err(MultipleObjects)
  {
    if cfg.filterName.None? || !IsModelFilter(cfg.filterName.value) then Ok(None)
    else if cfg.filterKwarg !in kwargs then Err(MissingKwarg)
    else
      var lookup := LookupField(cfg.filterName.value);
      var value := kwargs[cfg.filterKwarg];
      var found := Matching(objects, lookup, value);
      if lookup == "pk" && ParseInt(value).None? then
        assert found != [] ==> found[0] in found;
        Err(NotFound)
      else if found == [] then Err(NotFound)
      else if |found| > 1 then Err(MultipleObjects)
      else
        assert found[0] in found;
        Ok(Some(found[0]))
  }

  /** A slug or name key is matched whatever its case. */
  lemma LookupIgnoresCase(o: FilterObject, value: string)
    ensures IExact(o, "slug", value) == IExact(o, "slug", Lower(value))
    ensures IExact(o, "name", value) == IExact(o, "name", Lower(value))
  {
    LowerIdempotent(value);
  }

  lemma LowerIdempotent(s: string)
    ensures Lower(Lower(s)) == Lower(s)
  {
  }

  /** SortFilterView.get: the URL to redirect to, if any. A user's URL is
      the author page, reversed by `authorUrl`. */
  function RedirectTarget(obj: Option<FilterObject>, path: string, authorUrl: nat -> string): (r: Option<string>)
    ensures obj.None? || obj.value.url.None? ==> r.None?
    ensures r.Some? ==> r.value != path
    ensures obj.Some? && obj.value.url.Some? && !obj.value.isUser ==>
              (r.None? <==> obj.value.url.value == path)
    ensures obj.Some? && obj.value.url.Some? ==>
              var target := if obj.value.isUser then authorUrl(obj.value.pk) else obj.value.url.value;
              r == (if target == path then None else Some(target))
  {
    if obj.None? || obj.value.url.None? then None
    else
      var absolute := if obj.value.isUser then authorUrl(obj.value.pk) else obj.value.url.value;
      if absolute != path then Some(absolute) else None
  }

  /** Following a redirect lands on a page that is not redirected again. */
  lemma RedirectSettles(obj: Option<FilterObject>, path: string, authorUrl: nat -> string)
    requires RedirectTarget(obj, path, authorUrl).Some?
    ensures RedirectTarget(obj, RedirectTarget(obj, path, authorUrl).value, authorUrl).None?
  {
  }

  /** What get_context_data adds: the form's data and, for a model filter,
      the object under the filter's name. */
  datatype Context = Context(form: FormData, filtered: Option<(string, Option<FilterObject>)>)

  function GetContextData(cfg: ViewConfig, form: FormData, obj: Option<FilterObject>): (c: Context)
    ensures c.form == form
    ensures c.filtered.Some? <==> cfg.filterName.Some? && IsModelFilter(cfg.filterName.value)
    ensures c.filtered.Some? ==> c.filtered.value == (cfg.filterName.value, obj)
  {
    if cfg.filterName.Some? && IsModelFilter(cfg.filterName.value) then Context(form, Some((cfg.filterName.value, obj)))
    else Context(form, None)
  }
}
