# Miro Community (LocalTV) core, modelled in Dafny

Miro Community is a Django site for curating a video collection. Videos reach the
site from RSS/Atom feeds, from saved searches and from user submissions. Admins
moderate them in a queue and organise them into categories and playlists. Visitors
browse, search and subscribe to feeds. This project models the decision logic of
that core and proves properties of it:

- importing feeds and building thumbnails;
- the submission forms and views;
- the moderation and bulk-edit screens;
- the sources, category and feed admin;
- search forms, sorting and normalised result lists;
- listing, video and playlist pages;
- the OpenSearch feed parameters;
- the Celery task decisions;
- the profile and notification forms;
- the site-settings cache;
- the file-data migration and the review e-mail command.

How the model stands in for the program:

- **Tables.** The database is a set of in-memory tables (module `Store`): each
  table is a sequence of records, and a query is a filter or a sort over one.
- **Statuses.** Video statuses use the names in `localtv/models.py`:
  `Unapproved`, `Active`, `Rejected` and `Pending`. The newer names map onto them:
  NEEDS_MODERATION is `Unapproved`, PUBLISHED is `Active` and HIDDEN is `Rejected`.
- **Time** is an integer number of microseconds since the epoch. The current time `now` is always a
  parameter.
- **Collaborators are parameters.** This covers every collaborator the code calls
  without defining it: the scraper, feedparser, URL resolution, `slug_re`, the
  service regexes, `strip_tags`, `get_absolute_url` and the image scaler.
- **Shapes.** Where the source changes state step by step, the model is a
  `method` with loop invariants or a `class` with `modifies` clauses. Everything
  else is a function.
- **Proofs.** Each operation is tied by a lemma or an `ensures` to a
  specification function or to an invariant it keeps.

Modules, one per source file (plus shared helpers):

| module | models |
|---|---|
| `Common`, `Strings`, `Sorting`, `Paging`, `Store`, `Query` | shared helpers: options and results, string splitting and joining, stable sorts, Django's paginator, the tables, Q-object lookups |
| `VideoModel` | `localtv/models.py`: Video, Category, Watch, thumbnails, `user_is_admin` |
| `FeedUpdate` | `Feed.update_items` in `localtv/models.py` |
| `Managers` | `localtv/managers.py` |
| `FeedViews` | `localtv/feeds/views.py` |
| `LiveSearch` | `localtv/admin/legacy/livesearch/utils.py` |
| `ProfileForms` | `localtv/user_profile/forms.py` and `localtv/admin/forms.py` |
| `SearchForms`, `SearchUtils`, `SearchViews`, `SearchIndexes` | `localtv/search/*`, `localtv/search_indexes.py` |
| `ListingViews` | `localtv/listing/views.py` |
| `Moderation` | `localtv/admin/legacy/approve_reject_views.py` |
| `PlaylistViews`, `PlaylistForms` | `localtv/playlists/*` |
| `SubmitViews`, `SubmitForms` | `localtv/submit_video/*` |
| `LegacySubmit` | `localtv/forms.py` |
| `Tasks` | `localtv/tasks.py` |
| `SourcesViews`, `BulkEdit`, `CategoryViews`, `FeedAdmin` | `localtv/admin/legacy/*` |
| `Riffs` | `localtv/riffs.py` (the same code as in `localtv/admin/riffs.py` and `localtv/admin/forms.py`) |
| `FileMigration` | `localtv/migrations/0094_migrate_file_data.py` |
| `Context` | `localtv/context_processors.py` |
| `ReviewEmail` | `localtv/management/commands/review_status_email.py` |
| `InlineEdit` | `localtv/inline_edit/forms.py` |
| `VideoPage` | `localtv/views.py` |

## Model

| member | source | states |
|---|---|---|
| BulkEdit.BaseSet | localtv/admin/legacy/bulk_edit_views.py:28-43 | 'rejected' and 'unapproved' list every hidden or queued video; otherwise exactly the site's published videos, narrowed to featured, unattributed or uncategorised ones by those filters |
| BulkEdit.IntParam | localtv/admin/legacy/bulk_edit_views.py:47-51 | a missing or non-integer parameter means no filter; an integer one is its value |
| BulkEdit.ByCategory | localtv/admin/legacy/bulk_edit_views.py:53-54 | without a category nothing changes; with one, exactly the videos in that category stay |
| BulkEdit.ByAuthor | localtv/admin/legacy/bulk_edit_views.py:62-63 | without an author nothing changes; with one, exactly the videos by that author stay |
| BulkEdit.ByText | localtv/admin/legacy/bulk_edit_views.py:65-75 | an empty query changes nothing; otherwise exactly the videos whose description, name or a related name contains it, ignoring case, stay |
| BulkEdit.Listed | localtv/admin/legacy/bulk_edit_views.py:28-95 | the list is sorted by the chosen column and holds exactly the starting-set videos that pass the category, author and text filters |
| BulkEdit.NonIntegerIgnored | localtv/admin/legacy/bulk_edit_views.py:47-63 | non-integer category and author parameters with no query list the starting set itself, reordered |
| BulkEdit.BulkPage | localtv/admin/legacy/bulk_edit_views.py:96-102 | a non-integer page is a 400 'Not a page number'; no page parameter shows page 1; an integer page shows that page of 30 when it exists and the last page otherwise |
| BulkEdit.SuccessRedirect | localtv/admin/legacy/bulk_edit_views.py:109-118 | the full path as it is when 'successful' is already a GET key, otherwise with 'successful' added after '&' or '?' |
| BulkEdit.RedirectSettles | localtv/admin/legacy/bulk_edit_views.py:109-118 | following the redirect and saving again redirects to the same path |
| CategoryViews.OrphanOf | localtv/admin/legacy/category_views.py:45-48 | a child of a deleted category loses its parent and nothing else; any other category is unchanged |
| CategoryViews.Orphaned | localtv/admin/legacy/category_views.py:41-49 | after deleting the checked categories none of them remains and no remaining category points at one |
| CategoryViews.OrphanedKeepsOthers | localtv/admin/legacy/category_views.py:41-49 | every unchecked category survives, detached from a deleted parent and otherwise unchanged |
| CategoryViews.OrphanedSnoc | localtv/admin/legacy/category_views.py:42-49 | deleting the checked categories and then one more is the same as deleting them all at once |
| CategoryViews.DeleteOneOrphans | localtv/admin/legacy/category_views.py:44-49 | one step of the loop (detach the children, then delete) equals deleting that one category |
| CategoryViews.DeleteCheckedOrphans | localtv/admin/legacy/category_views.py:41-49 | deleting the checked categories one after another leaves exactly the orphaned table, whatever the order of the checks |
| CategoryViews.EditOf | localtv/admin/legacy/category_views.py:39 | a row is replaced only by the form that holds its id; a row no form holds is unchanged |
| CategoryViews.ApplyEdits | localtv/admin/legacy/category_views.py:39 | saving the formset keeps every row in place, each row changed only by the form for its id |
| CategoryViews.SavedThenDeleted | localtv/admin/legacy/category_views.py:38-49 | because the forms are saved first, no category left after a bulk delete points at a deleted one, even one a form just set |
| CategoryViews.Successful | localtv/admin/legacy/category_views.py:50 | the redirect is the request path followed by '?successful' |
| CategoryViews.DetachChildren | localtv/admin/legacy/category_views.py:45-48 | each child of the category is saved with no parent; every other row is unchanged |
| CategoryViews.FormsetPost | localtv/admin/legacy/category_views.py:35-50 | a valid formset saves the forms, deletes the checked categories when bulk_action is 'delete', and redirects; an invalid one changes nothing |
| CategoryViews.AddCategory | localtv/admin/legacy/category_views.py:26-33 | a valid add form appends a category bound to the current site and redirects; an invalid one changes nothing |
| Context.SettingsContext | localtv/context_processors.py:35-39 | exactly the seven safe settings are keys, each holding the configured value or '' when the setting is not defined |
| Context.RootCategories | localtv/context_processors.py:52-53 | a category is listed iff it belongs to the current site and has no parent |
| Context.Localtv | localtv/context_processors.py:29-65 | the submit button shows iff the site enables it or the user is an admin; the top level holds exactly the safe settings minus LOGIN_URL, LOGOUT_URL and MEDIA_URL, each equal to its 'settings' entry; site_settings and sitelocation are the current settings; the status aliases are UNAPPROVED, ACTIVE and REJECTED; categories are the site's root categories |
| Context.HiddenOnlyUnderSettings | localtv/context_processors.py:41-48 | a hidden setting is absent from the top level but still readable under 'settings', as its value or '' |
| Context.BrowseModules | localtv/context_processors.py:68-76 | the browse menu is the videos template followed by the categories template |
| FeedAdmin.FindFeed | localtv/admin/legacy/feed_views.py:57 | the position found holds a feed with that pk on the current site; None only when no feed has both |
| FeedAdmin.AutoApproveValue | localtv/admin/legacy/feed_views.py:59 | auto_approve becomes true iff the 'disable' parameter is absent or empty |
| FeedAdmin.Switched | localtv/admin/legacy/feed_views.py:59-60 | only the chosen feed changes, and in it only auto_approve, which takes the parameter's value |
| FeedAdmin.SwitchIdempotent | localtv/admin/legacy/feed_views.py:56-62 | the feed is still found at the same place after the switch, and repeating the request leaves the table unchanged |
| FeedAdmin.FeedAutoApprove | localtv/admin/legacy/feed_views.py:54-62 | no feed with that pk on the site: a 404 and no change; otherwise 'SUCCESS' and the table is exactly Switched |
| FeedAdmin.AddFeedFormFor | localtv/admin/legacy/feed_views.py:17-28 | the add-feed form starts with auto_approve unchecked and is given the requesting user |
| FeedUpdate.ScrapeFor | localtv/models.py:251-266 | the scraper is asked only for a non-empty link; otherwise there is no scraped data |
| FeedUpdate.FileUrlFor | localtv/models.py:247-259 | the enclosure's href wins; without one the scraped file URL is used unless flagged flaky; otherwise none |
| FeedUpdate.KeptTags | localtv/models.py:299-309 | exactly the entry tags of 1 to 25 characters that match slug_re are attached |
| FeedUpdate.WithThumbnail | localtv/models.py:293-297 | only the thumbnail fields change; the video has a thumbnail exactly when it had one or its thumbnail URL could be opened |
| FeedUpdate.ImportEntry | localtv/models.py:227-316 | an entry already imported by guid or link is skipped; a created video has a file URL or an embed code, the given id, the feed and its site, and the link as website URL |
| FeedUpdate.ImportEntryExactly | localtv/models.py:227-273 | an entry becomes a video exactly when it is not already imported and yields a file URL or an embed code |
| FeedUpdate.CreatedVideoFields | localtv/models.py:221-316 | the new video's status follows auto_approve, both timestamps are now, the website URL is the link, the guid is not copied, the tags are filtered and every auto category and author is attached |
| FeedUpdate.Imported | localtv/models.py:227-316 | a run creates at most one video per entry |
| FeedUpdate.ImportedIds | localtv/models.py:275-291 | the videos of a run belong to the feed and its site and take consecutive ids in entry order |
| FeedUpdate.ImportedLinksFresh | localtv/models.py:233-236 | when every entry has a link, no created video repeats the website URL of a video of the feed stored before it, including those created earlier in the same run |
| FeedUpdate.ReimportWithoutLink | localtv/models.py:229-288 | any entry with a non-empty guid and no link that is imported once is imported again on the next run, because the created video's guid is never set |
| FeedUpdate.UpdatedFeed | localtv/models.py:317-319 | etag becomes the parsed etag or '', last_updated becomes now, and nothing else of the feed changes |
| FeedUpdate.ImportStep | localtv/models.py:227-316 | one iteration keeps the videos created so far followed by those still to create equal to the whole run |
| FeedUpdate.ImportOne | localtv/models.py:275-291 | the entry's video, if any, is appended to the table with the next id; otherwise nothing changes |
| FeedUpdate.ImportEntries | localtv/models.py:227-316 | the videos added are exactly the run's videos, in entry order, with consecutive ids |
| FeedUpdate.UpdateItems | localtv/models.py:215-319 | the run's videos are added and only the stored feed's etag and last_updated change |
| FeedViews.NormalizeParam | localtv/feeds/views.py:224-235 | a parseable value is returned unless it is negative and negatives are not allowed; anything else gives the default; with a non-negative default the result is never negative |
| FeedViews.NormalizeParamRoundTrip | localtv/feeds/views.py:224-235 | any non-negative integer written into a parameter is read back |
| FeedViews.NonNegativeParam | localtv/feeds/views.py:224-235 | a parameter with a non-negative default is its parsed value when that is a non-negative integer, otherwise the default |
| FeedViews.OpenSearchSpec | localtv/feeds/views.py:191-222 | the start index and the count are never negative, and a missing count is 30 |
| FeedViews.OpenSearchDefaults | localtv/feeds/views.py:196-217 | a nonsense count is 30, a given count is used, a positive startIndex wins, start-index is read only without startIndex, and otherwise the start is startPage times count |
| FeedViews.FeedRequest.GetOpenSearchData | localtv/feeds/views.py:191-222 | the data is computed from the request on the first call and stored; later calls return the stored value |
| FeedViews.FeedRequest.OpenSearchItems | localtv/feeds/views.py:164-169 | totalresults records the full length, and the items returned are the page the opensearch data selects |
| FeedViews.OpenSearchPage | localtv/feeds/views.py:165-169 | the slice never holds more than the count; on an index result it is the normalised slice of the hits, or the ValueError of an unparsable pk; on a queryset it is exactly the rows of the slice |
| FeedViews.SizesFor | localtv/feeds/views.py:172-175 | a JSON feed prepares all four thumbnail sizes, any other feed the first two, which always include the description size |
| FeedViews.Adjustments | localtv/feeds/views.py:176-183 | one entry per prepared size, each the adjustment for that video and size |
| FeedViews.AdjustSize | localtv/feeds/views.py:176-183 | one pass records the size's adjustment on every item and changes nothing else |
| FeedViews.AdjustmentsSnoc | localtv/feeds/views.py:176-183 | adding one more size to the prepared ones adds exactly that size's entry |
| FeedViews.BulkAdjustedItems | localtv/feeds/views.py:171-189 | every item gets an adjustment for each size, and its description thumbnail is the adjustment for the second size |
| FeedViews.ItemPubdate | localtv/feeds/views.py:237-240 | only a published video has a publication date, which is its when() |
| FeedViews.AddDomain | localtv/feeds/views.py:245 | an absolute or mailto URL is unchanged, a protocol-relative one gets 'http:', and a relative one is iri_to_uri of 'http://', the domain and the URL |
| FeedViews.AddDomainIdempotent | localtv/feeds/views.py:245 | when iri_to_uri keeps an 'http://' prefix, every URL comes out absolute and a second application keeps it |
| FeedViews.ItemGuid | localtv/feeds/views.py:242-245 | the video's guid when it has one, otherwise its absolute URL on the site's domain |
| FeedViews.EnclosureUrl | localtv/feeds/views.py:283-287 | file_url, else flash_enclosure_url, else none |
| FeedViews.EnclosureLength | localtv/feeds/views.py:289-293 | file_url_length when set and non-zero, else 1 |
| FeedViews.EnclosureMimeType | localtv/feeds/views.py:295-301 | file_url_mimetype, else the flash mime type when there is a flash enclosure, else empty |
| FeedViews.EnclosureFieldsAgree | localtv/feeds/views.py:283-301 | a flash enclosure without a stored mime type is announced as flash, and no enclosure without a mime type gives an empty type |
| FeedViews.GetFormData | localtv/feeds/views.py:106-111 | sort 'latest' becomes 'newest' and every other key is the mixin's |
| FileMigration.FindFile | localtv/migrations/0094_migrate_file_data.py:18 | the first row of the video with that URL, or none exactly when no such row exists |
| FileMigration.ForwardOneCovers | localtv/migrations/0094_migrate_file_data.py:16-23 | after its pass a video with a file URL has a row for that URL carrying its length and MIME type |
| FileMigration.ForwardOneKeepsOther | localtv/migrations/0094_migrate_file_data.py:16-23 | a pass for one video leaves every other covered video covered |
| FileMigration.ForwardCoveredNoop | localtv/migrations/0094_migrate_file_data.py:17-23 | the pass of an already covered video changes nothing |
| FileMigration.ForwardAllCovers | localtv/migrations/0094_migrate_file_data.py:16-23 | after forwards every video with a file URL is covered |
| FileMigration.ForwardAllNoop | localtv/migrations/0094_migrate_file_data.py:16-23 | forwards over a table where every video is covered changes nothing |
| FileMigration.ForwardsIdempotent | localtv/migrations/0094_migrate_file_data.py:9-23 | running forwards twice adds no row and changes nothing more |
| FileMigration.ForwardsOnlyFileVideos | localtv/migrations/0094_migrate_file_data.py:16-23 | rows of videos without a file URL are left as they were, and every added row belongs to a video with one |
| FileMigration.Forwards | localtv/migrations/0094_migrate_file_data.py:9-23 | the loop leaves exactly the rows and next pk of the forwards specification |
| FileMigration.Longest | localtv/migrations/0094_migrate_file_data.py:31 | none exactly when the video has no rows; otherwise one of its rows that no other row of it is longer than |
| FileMigration.Restore | localtv/migrations/0094_migrate_file_data.py:29-35 | a video without rows is left alone |
| FileMigration.RestoreFromLongest | localtv/migrations/0094_migrate_file_data.py:29-35 | a video with rows takes its URL, length and MIME type from one of its own rows, a longest one, and nothing else changes |
| FileMigration.Backwards | localtv/migrations/0094_migrate_file_data.py:25-35 | every video becomes its restored form, in place |
| FileMigration.RoundTrip | localtv/migrations/0094_migrate_file_data.py:9-35 | forwards then backwards gives a video with a file URL and no rows its own file fields back |
| InlineEdit.EditorsComments | localtv/inline_edit/forms.py:90-94 | exactly the comments of the video's site on the video that carry the editor's-comment flag |
| InlineEdit.Extras | localtv/inline_edit/forms.py:95-100 | the pks of the found comments after the first, none when nothing is found |
| InlineEdit.AfterInit | localtv/inline_edit/forms.py:95-100 | exactly the comments whose pk is not one of the extras remain |
| InlineEdit.AtMostOneEditorsComment | localtv/inline_edit/forms.py:84-101 | after the init the first found comment is the video's only editor's comment, and every other comment of the table stays |
| InlineEdit.WithoutComment | localtv/inline_edit/forms.py:107-108 | exactly the form's comment, when it has one, is removed |
| InlineEdit.DraftAsWritten | localtv/inline_edit/forms.py:111-116 | the comment as written carries the text and the video pk, is removed and not public, and has no site |
| InlineEdit.Draft | localtv/inline_edit/forms.py:111-116 | the corrected comment is the same on the video's site, not yet flagged |
| InlineEdit.Stored | localtv/inline_edit/forms.py:117-124 | a saved draft gains its pk and the editor's flag and nothing else |
| InlineEdit.NoneLeftAfterDelete | localtv/inline_edit/forms.py:99-108 | deleting the kept comment after the init leaves no editor's comment of the video, and every other comment |
| InlineEdit.SavedCommentLost | localtv/inline_edit/forms.py:90-124 | as written the comment is built without a site, so a later form's init never finds it, even if the save goes through |
| InlineEdit.SavedCommentFound | localtv/inline_edit/forms.py:90-124 | with the site set, init and a committed save leave exactly the new comment as the video's editor's comment, and every unrelated comment |
| InlineEdit.EmptyTextDeletes | localtv/inline_edit/forms.py:105-110 | an empty text only deletes: no editor's comment of the video is left |
| InlineEdit.EditorsCommentForm.constructor | localtv/inline_edit/forms.py:84-103 | without a video there is no comment and no change; otherwise the first found comment is kept with its text as initial and the other found comments are deleted |
| InlineEdit.EditorsCommentForm.Save | localtv/inline_edit/forms.py:105-127 | the form's comment is deleted; an empty text stops there; otherwise the corrected draft is stored and flagged on commit, or its flag left pending without it |
| InlineEdit.DeleteExtras | localtv/inline_edit/forms.py:99-100 | the loop leaves exactly the table without the extra pks |
| InlineEdit.TagsSave | localtv/inline_edit/forms.py:62-64 | the cleaned tags replace the instance's tags, and the row is saved only on commit |
| InlineEdit.TagsReload | localtv/inline_edit/forms.py:55-64 | after a committed save the video's row has the new tags and a tags form built on it shows them |
| LegacySubmit.Duplicates | localtv/forms.py:30-39 | exactly the visible videos of the site identified by the url (external, file or original url) or the guid |
| LegacySubmit.CleanSpec | localtv/forms.py:52-69 | a flagged duplicate always passes; otherwise the submission is rejected exactly when the url or the scraped guid identifies a visible site video |
| LegacySubmit.RecheckSplit | localtv/forms.py:30-39 | a check of a url with a guid finds something exactly when the url alone or the guid alone does |
| LegacySubmit.LinkNeverChecked | localtv/forms.py:64-68 | as written the outcome is the same as if the scraper had found no link |
| LegacySubmit.LinkDuplicateAccepted | localtv/forms.py:64-66 | a submission whose scraped link is a visible video's external url is accepted as written and rejected by the corrected clean |
| LegacySubmit.CleanFixed | localtv/forms.py:52-69 | the corrected clean also rejects a differing scraped link that identifies a visible site video |
| LegacySubmit.FixedChecksLink | localtv/forms.py:64-66 | the corrected clean rejects any submission whose scraped link names a visible site video |
| LegacySubmit.SubmitForm.constructor | localtv/forms.py:19-28 | anonymous users get an email field, required exactly when the site requires email; authenticated users get none |
| LegacySubmit.SubmitForm.ValidateUnique | localtv/forms.py:30-50 | fails exactly when there is a duplicate, and records the first one, whatever its status |
| LegacySubmit.SubmitForm.Clean | localtv/forms.py:52-69 | the result is the as-written clean; the scraped video is kept once the first check passes; a rejection leaves a visible site duplicate recorded |
| LegacySubmit.Save | localtv/forms.py:71-81 | the video records the url as original url and is owned by the authenticated user, or else by the session with the given email; nothing else changes |
| LegacySubmit.UnscrapedSubmissionSaved | localtv/forms.py:71-81 | a failed scrape still yields a video with the url and an owner |
| ListingViews.GetPaginateBy | localtv/listing/views.py:43-52 | no 'count' gives the default page size, an empty one gives no pagination, a parseable one is the page size and an unparseable one falls back to the default |
| ListingViews.CountRoundTrip | localtv/listing/views.py:43-52 | any integer written into 'count' comes back as the page size |
| ListingViews.GetFormData | localtv/listing/views.py:54-61 | 'q' is always present, taken from 'q', else 'query', else empty; sort 'latest' becomes 'newest'; every other key is the mixin's |
| ListingViews.GetFormDataSettles | localtv/listing/views.py:54-61 | feeding the form data back in as base data changes nothing |
| ListingViews.ApprovedSince | localtv/listing/views.py:63-73 | without a period the queryset is unchanged; with one, exactly the videos approved after now minus the period are kept, the never-approved ones excluded by null or by the index placeholder. It is given the corrected popular sort's list: on the chain that sort returns as written, `exclude` raises (see Findings) |
| ListingViews.ApprovedSinceBackendsAgree | localtv/listing/views.py:67-73 | when the window opens after the placeholder date, the index and the database keep the same videos |
| ListingViews.ToVideoList | localtv/listing/views.py:75 | the normalized list has one entry per row, and is an index list exactly when the queryset came from the index. It is given the corrected popular sort's list: on the chain that sort returns as written, `select_related` raises (see Findings) |
| ListingViews.IndexPkRoundTrip | localtv/listing/views.py:75 | an index hit's string pk parses back to the video's id |
| ListingViews.GetContextData | localtv/listing/views.py:77-83 | the context adds the bound 'q' value as 'query', and 'video_list' is the same page as 'videos' |
| LiveSearch.ParseQuerystring | localtv/admin/legacy/livesearch/utils.py:7-17 | one stripped exclude term per distinct exclude term of the query |
| LiveSearch.ParsePartition | localtv/admin/legacy/livesearch/utils.py:13-15 | the include terms and the unstripped exclude terms are disjoint and together are every whitespace-separated term |
| LiveSearch.ExcludedIffDash | localtv/admin/legacy/livesearch/utils.py:14-15 | a term is excluded exactly when it begins with '-', and included exactly when it does not |
| LiveSearch.StrippedExclude | localtv/admin/legacy/livesearch/utils.py:16 | each returned exclude term is its query term with the whole run of leading dashes removed and nothing else |
| LiveSearch.StripExamples | localtv/admin/legacy/livesearch/utils.py:16 | '--a' becomes 'a' and '-' becomes the empty term |
| LiveSearch.RepeatedTermsCollapse | localtv/admin/legacy/livesearch/utils.py:13-17 | the exclude terms have no repeats, and repeating the whole query parses the same |
| LiveSearch.DedupFrom | localtv/admin/legacy/livesearch/utils.py:13-14 | collecting terms as a set keeps each term once and loses none |
| LiveSearch.TermsForCache | localtv/admin/legacy/livesearch/utils.py:20-22 | the cache key contains no whitespace |
| LiveSearch.CacheKeyIsConcatenation | localtv/admin/legacy/livesearch/utils.py:20-22 | for terms without whitespace the key is the include terms then the exclude terms, concatenated |
| Managers.SitePkOf | localtv/managers.py:23-26 | a Site object is replaced by its pk before the lookup |
| Managers.FindRow | localtv/managers.py:29 | the row found belongs to the site; none is found only when no row does |
| Managers.SiteRelatedManager.GetCached | localtv/managers.py:22-38 | a hit returns the cached instance and changes nothing; a miss caches the stored row, or creates one when the Site exists; a missing Site raises DoesNotExist and caches nothing |
| Managers.SiteRelatedManager.GetCurrent | localtv/managers.py:44-51 | the settings of SITE_ID on the manager's database or 'default'; result, cache and rows are those of get_cached for that key, so a hit changes nothing and a miss fetches or creates the row |
| Managers.SiteRelatedManager.ClearCache | localtv/managers.py:53-54 | the cache is emptied and no row changes |
| Managers.SiteRelatedManager.PostSave | localtv/managers.py:56-57 | the saved instance replaces the cache entry of its site on that database |
| Managers.GetCachedSpec | localtv/managers.py:22-38 | a failed lookup changes nothing; a successful one leaves the result cached under its key |
| Managers.GetCachedRepeat | localtv/managers.py:22-38 | a repeated call returns the same instance and changes nothing, so a settings row is created at most once per key |
| Managers.SiteObjectAndPkAgree | localtv/managers.py:23-26 | a Site object and its pk hit the same cache entry |
| Managers.WithBestDate | localtv/managers.py:70-77 | best_date is when_published (when asked for), else when_approved, else when_submitted |
| Managers.BestDateAgreesWithIndex | localtv/managers.py:70-77 | the database best date equals the indexed best date, with or without the publish date |
| Managers.PopularSince | localtv/managers.py:79-83 | without a since, the window starts seven days before now |
| Managers.WatchCountPositive | localtv/managers.py:85-93 | a video has a positive watch count since the start exactly when it was watched since then |
| Managers.Popular | localtv/managers.py:85-93 | exactly the videos watched since the start, by descending watch count |
| Managers.NotPopular | localtv/managers.py:95-101 | exactly the videos not watched since the start |
| Managers.PopularPartition | localtv/managers.py:85-101 | popular() and not_popular() split the queryset between them |
| Managers.SiteSettingsVideos | localtv/managers.py:115-124 | exactly the published videos of the site |
| Managers.FeaturedVideos | localtv/managers.py:126-140 | exactly the site's published videos with a last_featured date, ordered by the four dates descending |
| Managers.FeaturedNewestFirst | localtv/managers.py:133-140 | a video featured later always comes before one featured earlier |
| Moderation.Queue | localtv/admin/legacy/approve_reject_views.py:24-29 | exactly the site's videos awaiting moderation, oldest submission first |
| Moderation.PageNumber | localtv/admin/legacy/approve_reject_views.py:36 | no page parameter is page 1; otherwise the parameter parsed as an integer, or none |
| Moderation.ApproveRejectPage | localtv/admin/legacy/approve_reject_views.py:33-47 | a non-integer page is a 400 'Not a page number'; a page holds at most 10 videos, all queued on the site |
| Moderation.ApproveRejectClamps | localtv/admin/legacy/approve_reject_views.py:35-40 | an integer page number in range shows its page, any other integer shows the last page |
| Moderation.Approve | localtv/admin/legacy/approve_reject_views.py:72-78 | the video is published and approved now, and featured now when 'feature' is given; nothing else changes |
| Moderation.Reject | localtv/admin/legacy/approve_reject_views.py:104-105 | the video is hidden and nothing else changes |
| Moderation.Feature | localtv/admin/legacy/approve_reject_views.py:116-120 | the video is published and featured now; its approval date changes only if it was not already published |
| Moderation.Unfeature | localtv/admin/legacy/approve_reject_views.py:131-132 | the video is no longer featured and nothing else changes |
| Moderation.FeatureIsApproveFeatured | localtv/admin/legacy/approve_reject_views.py:72-119 | featuring an unpublished video is approving it with 'feature' |
| Moderation.FeatureTwice | localtv/admin/legacy/approve_reject_views.py:116-119 | featuring again only moves last_featured and keeps the approval date |
| Moderation.UnfeatureUndoesFeature | localtv/admin/legacy/approve_reject_views.py:116-132 | unfeaturing a published, unfeatured video after featuring it restores it |
| Moderation.ApproveVideo | localtv/admin/legacy/approve_reject_views.py:65-94 | a video of the site with that id is approved in place and the answer is 'SUCCESS'; otherwise a 404 and no change |
| Moderation.RejectVideo | localtv/admin/legacy/approve_reject_views.py:99-106 | a video of the site with that id is hidden in place and the answer is 'SUCCESS'; otherwise a 404 and no change |
| Moderation.FeatureVideo | localtv/admin/legacy/approve_reject_views.py:111-122 | a video of the site with that id is featured in place and the answer is 'SUCCESS'; otherwise a 404 and no change |
| Moderation.UnfeatureVideo | localtv/admin/legacy/approve_reject_views.py:127-134 | a video of the site with that id is unfeatured in place and the answer is 'SUCCESS'; otherwise a 404 and no change |
| Moderation.SingleActionChangesOneRow | localtv/admin/legacy/approve_reject_views.py:65-134 | saving the changed video replaces that one row and no other |
| Moderation.BulkPage | localtv/admin/legacy/approve_reject_views.py:141-148 | a non-integer page is 'Not a page number', a page out of range is 'Page number request exceeded available pages', otherwise that page of the queue |
| Moderation.SaveEach | localtv/admin/legacy/approve_reject_views.py:150-152 | the videos of the page are changed and saved one after another, in order |
| Moderation.RejectAll | localtv/admin/legacy/approve_reject_views.py:140-154 | on a valid page every video of it is hidden and the answer is 'SUCCESS'; otherwise the 400 and no change |
| Moderation.ApproveAll | localtv/admin/legacy/approve_reject_views.py:159-175 | on a valid page every video of it is published and approved now; otherwise the 400 and no change |
| Moderation.BulkActionOnlyPage | localtv/admin/legacy/approve_reject_views.py:150-173 | a bulk action changes exactly the videos of the requested page and leaves every other row as it was |
| Moderation.ClearAll | localtv/admin/legacy/approve_reject_views.py:179-190 | with confirm 'yes' every queued video of the site is hidden and the view redirects; otherwise nothing changes and the confirmation page is shown |
| Moderation.ClearAllEmptiesQueue | localtv/admin/legacy/approve_reject_views.py:182-185 | after a confirmed clear_all nothing of the site awaits moderation and only the queued rows changed |
| PlaylistForms.CleanUnique | localtv/playlists/forms.py:13-32 | an unchanged value is accepted; a changed one is rejected, with the source's message, exactly when another playlist of the same owner already has it |
| PlaylistForms.OtherUsersNeverConflict | localtv/playlists/forms.py:21-23 | playlists of other owners never make a value rejected |
| PlaylistForms.AcceptedEditKeepsUnique | localtv/playlists/forms.py:13-32 | saving a name or slug the form accepted keeps names and slugs unique per owner |
| PlaylistViews.PlaylistEnabledCases | localtv/playlists/views.py:34-43 | playlists off is a 404 for everyone, admins-only is a 404 exactly for non-admins, any other setting lets the view run |
| PlaylistViews.BulkPublic | localtv/playlists/views.py:108-116 | a selected public playlist is left alone; any other becomes public for an admin and waits for moderation otherwise |
| PlaylistViews.MakePrivate | localtv/playlists/views.py:117-120 | the playlist becomes private and nothing else changes |
| PlaylistViews.BulkPublicOutcome | localtv/playlists/views.py:108-116 | after bulk 'public' an admin's selection is all public, anyone's is public or waiting, and repeating it changes nothing |
| PlaylistViews.SavePlaylist | localtv/playlists/views.py:113-120 | saving updates the row with the playlist's pk, or appends it when there is none |
| PlaylistViews.DeletePlaylist | localtv/playlists/views.py:105-107 | exactly the playlists with another pk remain |
| PlaylistViews.ApplyBulkAction | localtv/playlists/views.py:105-120 | the selected playlists are deleted, made public or made private one after another, as the bulk action says |
| PlaylistViews.BulkResultUnselected | localtv/playlists/views.py:105-120 | a playlist that was not selected keeps its row through any bulk action |
| PlaylistViews.BulkDeleteRemovesSelected | localtv/playlists/views.py:105-107 | after bulk 'delete' no selected playlist is left |
| PlaylistViews.PublicAction | localtv/playlists/views.py:232-237 | a playlist that is not public becomes public for an admin and waits for moderation otherwise; only its status changes |
| PlaylistViews.PublicActionIsBulkPublic | localtv/playlists/views.py:108-237 | the single 'public' action and the bulk one agree on every playlist |
| PlaylistViews.NextUrl | localtv/playlists/views.py:238-241 | the referrer when there is one, else the index, with '?show=all' for an admin |
| PlaylistViews.PublicView | localtv/playlists/views.py:229-241 | disabled playlists or a missing pk are a 404 and change nothing; an unauthorised user is sent to login; otherwise the status is changed and saved when not public, and the user is redirected |
| PlaylistViews.PrivateView | localtv/playlists/views.py:244-252 | gated the same way; otherwise the playlist is made private and saved, and the user is redirected |
| PlaylistViews.FindPlaylist | localtv/playlists/views.py:47 | the position found holds a playlist with that pk; none is found only when no playlist has it |
| PlaylistViews.PlaylistPage | localtv/playlists/views.py:152-182 | a missing playlist, or a non-public one for a visitor who is neither admin nor owner, is a 404; otherwise another path redirects to the canonical URL and the canonical path shows the playlist with page size 'count', else 15 |
| PlaylistViews.PrivatePageHidden | localtv/playlists/views.py:171-176 | a non-public playlist's page is never shown to a visitor who is neither an admin nor its owner |
| ProfileForms.SplitPoint | localtv/user_profile/forms.py:46-49 | the loop stops at the first point from which the remaining words, joined by single spaces, fit in 30 characters, so it always terminates |
| ProfileForms.CleanName | localtv/user_profile/forms.py:42-53 | the loop computes the clean_name result, and an empty name cleans to ('', '') |
| ProfileForms.SplitPointUnique | localtv/admin/forms.py:112-115 | the stopping point of the loop is the only one with its two properties |
| ProfileForms.CleanNameKeepsWords | localtv/user_profile/forms.py:45-53 | on success both names are at most 30 characters, the first name starts with the first word, and the two names hold every word in order, rejoining to the name |
| ProfileForms.SplitAtKeepsWords | localtv/user_profile/forms.py:53 | splitting the words at any point and joining each half loses no word |
| ProfileForms.RejoinSlices | localtv/admin/forms.py:119 | the two halves joined by a space give back the whole name |
| ProfileForms.FirstNameGrows | localtv/admin/forms.py:113-114 | every word moved into the first name makes it longer |
| ProfileForms.NameTooLongIffNoSplit | localtv/admin/forms.py:116-118 | validation fails exactly when no split of the words gives both a first and a last name of at most 30 characters |
| ProfileForms.CleanNameFixed | localtv/user_profile/forms.py:42-46 | a name of only whitespace clears both names like an empty one; any other name cleans as written |
| ProfileForms.BlankNameCrashes | localtv/user_profile/forms.py:43-46 | a name of one space passes the emptiness test and fails on the first word as written, and clears both names as intended |
| ProfileForms.CleanUsername | localtv/user_profile/forms.py:55-61 | the username is accepted exactly when it is unchanged or no user has it yet |
| ProfileForms.UpdateProfile | localtv/user_profile/forms.py:68-78 | every field with a non-empty submitted value is written |
| ProfileForms.UpdateNeverErases | localtv/admin/forms.py:140-143 | a stored non-empty field stays non-empty, and an all-blank submission changes nothing |
| ProfileForms.UpdateIdempotent | localtv/user_profile/forms.py:74-78 | saving the same form twice stores what saving it once does |
| ProfileForms.Account.Save | localtv/user_profile/forms.py:63-89 | the cleaned name, or ('', ''), goes onto the user, and the profile, created blank when missing, receives the submitted fields |
| ProfileForms.OfferedChoices | localtv/admin/forms.py:54-58 | admins are offered the user notices followed by the admin notices, everyone else the user notices only |
| ProfileForms.InitialNotifications | localtv/user_profile/forms.py:123-128 | the initial value lists, in offered order, exactly the notices the user currently receives |
| ProfileForms.SaveNotifications | localtv/admin/forms.py:67-77 | without a user it fails; otherwise every offered notice is sent exactly when it was ticked, and the user's other settings are unchanged |
| Query.QForQueryset | localtv/search/utils.py:45-49 | one value gives the exact lookup of _exact_q, any other number an `__in` lookup |
| Query.QForQuerysetMeaning | localtv/search/utils.py:16-49 | whichever form the lookup takes, it matches exactly the rows storing one of the values, and a single None matches the rows where the field is null |
| Query.MakeQsMeaning | localtv/search/forms.py:46-49 | the OR of the lookups matches a row exactly when one of the field lookups matches it |
| ReviewEmail.QueueVideos | localtv/management/commands/review_status_email.py:26-29 | a video is queued iff it is in the table, needs moderation and belongs to the site |
| ReviewEmail.SendEmail | localtv/management/commands/review_status_email.py:21-43 | a notice is sent iff some queued video was submitted at or after now minus delta; it carries the given notice type and period, the subject 'Video Submissions for <site name>', the whole queue, and exactly the queued videos of the window as new videos |
| ReviewEmail.HandleAsWritten | localtv/management/commands/review_status_email.py:11-19 | as written, every notice sent is the daily one: the weekday test compares the bound method with 0 and never holds |
| ReviewEmail.HandleFixed | localtv/management/commands/review_status_email.py:11-19 | corrected: the daily notice, then the weekly one when weekday() is 0; at most two notices |
| ReviewEmail.MondayWeeklyMissed | localtv/management/commands/review_status_email.py:15-19 | on a Monday with a video queued in the past week the corrected command sends the weekly notice and the command as written sends none |
| ReviewEmail.FixedWeeklyOnlyOnMonday | localtv/management/commands/review_status_email.py:15-19 | the corrected command sends a weekly notice iff it is Monday and the weekly window holds a queued video |
| ReviewEmail.DailyListsFreshQueue | localtv/management/commands/review_status_email.py:12-14 | every new video of the daily notice is in its queue, in the table, and was submitted in the last 24 hours |
| Riffs.Pluralize | localtv/riffs.py:80-87 | the plural suffix is empty exactly when the count is one |
| Riffs.NoNewVideosIffZero | localtv/riffs.py:84-89 | the import sentence is 'No new videos found.' iff the import count is zero |
| Riffs.StatusText | localtv/riffs.py:73-77 | the status is non-empty and starts with 'F' (Finished) for a complete import and with 'U' (Updating...) otherwise |
| Riffs.Results | localtv/riffs.py:79-89 | two sentences when there are errors, otherwise one; the error sentence comes first and the import sentence is always last |
| Riffs.LatestImportText | localtv/riffs.py:67-91 | the text is non-empty and its first letter is 'W' iff there is no import, 'F' iff the latest import is complete, 'U' iff it is still running |
| Riffs.LatestImportShape | localtv/riffs.py:79-91 | with an import, the text is the status, a space, the error sentence and a space when there are errors, then the import sentence |
| Riffs.LatestImport | localtv/riffs.py:67-91 | the list-appending code returns exactly LatestImportText |
| Riffs.VideoCount | localtv/riffs.py:95-106 | the annotated count is exactly the number of video rows whose feed is this one: at most the number of videos, and zero iff no video points at the feed |
| Riffs.VideoFormSave | localtv/riffs.py:17-28 | the instance carries the cleaned tags; with commit it is saved (replacing the row with its id) and one index update is queued for it; without commit nothing is stored or queued |
| Riffs.FeedCreateSave | localtv/riffs.py:58-64 | the feed is put on the current site and named after its URL; with commit it is appended under the next primary key and one feed update is queued for that key; without commit nothing is stored or queued |
| SearchForms.DefaultChoiceClean | localtv/search/forms.py:27-36 | the value is kept exactly when it is a valid choice (or the initial); otherwise the initial is returned |
| SearchForms.DefaultChoiceIdempotent | localtv/search/forms.py:32-151 | with a valid initial the cleaned sort is always a valid choice and cleaning it again keeps it |
| SearchForms.SortFor | localtv/search/forms.py:141-147 | 'relevant' is the only dummy sort; 'newest' and 'oldest' are best-date sorts, descending and ascending |
| SearchForms.FormClean | localtv/search/forms.py:224-233 | sort 'featured' turns the featured filter on; 'relevant' without a query becomes 'newest'; every other value is kept |
| SearchForms.FormCleanIdempotent | localtv/search/forms.py:224-233 | cleaning twice changes nothing more, and an empty query never keeps 'relevant' |
| SearchForms.TagFilterClean | localtv/search/forms.py:119-127 | an empty value is 'required' when required and [] otherwise; any other value is its parsed tag list, or 'list' when it cannot be parsed |
| SearchForms.DateTimeFilter | localtv/search/forms.py:66-80 | a false value changes nothing; a true one keeps exactly the videos with a featured date |
| SearchForms.NoDateMeaning | localtv/search/forms.py:69-80 | the excluded values mean "no date": null on the database, the placeholder or either max date on the index |
| SearchForms.FeaturedFilterDropsUnfeatured | localtv/search/forms.py:66-80 | on either backend the featured filter drops every video never featured, and on the database it keeps every featured one |
| SearchForms.PkValues | localtv/search/forms.py:104-106 | the filter values are the pks of the selected objects, in order |
| SearchForms.ModelFilter | localtv/search/forms.py:104-106 | exactly the rows that store one of the pks under one of the field's lookups |
| SearchForms.ModelQMeaning | localtv/search/forms.py:46-57 | the OR of the lookups for the pks matches exactly the videos storing one of them under one lookup |
| SearchForms.TagFilter | localtv/search/forms.py:129-132 | on either backend exactly the rows carrying one of the tags |
| SearchForms.PassesCategories | localtv/search/forms.py:154-278 | a video that passes the form's filters is in one of the chosen categories, when any are chosen |
| SearchForms.ApplyFilter | localtv/search/forms.py:273-277 | a field with a falsy cleaned value changes nothing; otherwise exactly the rows that pass it stay |
| SearchForms.FilterFoldMeaning | localtv/search/forms.py:271-278 | after the filter fields, exactly the rows that pass each of them remain |
| SearchForms.FilterAll | localtv/search/forms.py:271-278 | the loop runs every filter field over the queryset, in declaration order |
| SearchForms.NoFiltersNoChange | localtv/search/forms.py:276 | with every cleaned filter value falsy the queryset is returned unchanged |
| SearchForms.BaseQueryset | localtv/search/forms.py:179-186 | exactly the published videos of SITE_ID, on the chosen backend |
| SearchForms.BasicSearch | localtv/search/forms.py:235-269 | with a backend answering from the site's indexed videos: only ACTIVE videos of the site are found; no query gives the base queryset; a failed index query gives nothing; on the index the hits themselves; on the database exactly the published site videos the index returned, in the order of the hits |
| SearchForms.Search | localtv/search/forms.py:188-199 | an invalid form gives nothing; otherwise the chosen sort applied to the filtered search results, each passing every filter |
| SearchForms.SearchOrder | localtv/search/forms.py:141-147 | 'relevant' keeps the search's order; 'newest' and 'oldest' order by the best date; 'featured' by last_featured as the backend stores it, descending; 'popular' puts the most watched first, the unwatched after them on the database |
| SearchForms.SearchStaysOnSite | localtv/search/forms.py:179-199 | whatever the filters and the sort, a search finds only ACTIVE videos of the site |
| SearchForms.BaseQuerysetsAgree | localtv/search/forms.py:179-186 | without a query the index and the database hold the same videos |
| SearchIndexes.PrepareBestDate | localtv/search_indexes.py:177-178 | when_approved if set, otherwise when_submitted |
| SearchIndexes.PrepareBestDateWithPublished | localtv/search_indexes.py:180-181 | when_published if set, otherwise the best date |
| SearchIndexes.BestDateIsAVideoDate | localtv/search_indexes.py:177-181 | both best dates are always one of the video's own dates, and without a publish date the two agree |
| SearchIndexes.IndexedDate | localtv/search_indexes.py:73-76 | a null last_featured or when_approved is indexed as the 1900-01-01 placeholder, which is also what index queries compare against |
| SearchIndexes.IndexQueryset | localtv/search_indexes.py:136-143 | exactly the ACTIVE videos are indexed |
| SearchIndexes.EnqueuesInstance | localtv/search_indexes.py:183-192 | an update is queued iff update_index is set and at least one of name, description, website_url, file_url is non-empty |
| SearchIndexes.EnqueueFkDelete | localtv/search_indexes.py:115-131 | an unknown model is a ValueError; otherwise the queued pks are exactly those of the indexed videos pointing at the deleted feed, search, user or site |
| SearchUtils.VerboseName | localtv/search/utils.py:166-171 | an unnamed best-date sort is called 'Newest' exactly when it descends and 'Oldest' exactly when it ascends; a given name is kept |
| SearchUtils.FieldLookup | localtv/search/utils.py:143-177 | best-date sorts read 'best_date_with_published' exactly on the index with use_original_date, 'best_date' otherwise; the popular sort reads 'watch_count'; a plain sort its own lookup |
| SearchUtils.OrderByRoundTrip | localtv/search/utils.py:151-154 | the ordering string reads back as the sort's own lookup and direction |
| SearchUtils.ApplySort | localtv/search/utils.py:136-196 | the corrected sort: every sort is a permutation of the queryset on the same backend; the dummy sort changes nothing; the 'featured_datetime' field sort orders by last_featured as the backend stores it; the others order by their key and direction; the popular sort on the database is popular() followed by not_popular() made a list, the watched videos first, most watched first |
| SearchUtils.FeaturedOrder | localtv/search/forms.py:145 | in the featured order the more recently featured of two featured videos comes first, and on the database never-featured videos come after the featured ones |
| SearchUtils.SortAsWritten | localtv/search/utils.py:186-196 | as written, the sort returns something other than a queryset exactly for the popular sort on the database, a chain yielding the corrected sort's rows |
| SearchUtils.QuerySetCall | localtv/search/utils.py:71-73 | a queryset method called on the sort's result raises AttributeError exactly when it is the chain |
| SearchUtils.PopularChainRaises | localtv/search/utils.py:191-195 | every database search sorted by popularity raises AttributeError as written, where the corrected sort gives popular() then not_popular() |
| SearchUtils.OtherSortsAreQuerySets | localtv/search/utils.py:136-196 | every other sort, and every sort on the index, gives callers the corrected sort's queryset |
| SearchUtils.ChainWatchedFirst | localtv/search/utils.py:191-195 | chaining the popular rows before the unpopular ones leaves no watched video after an unwatched one |
| SearchUtils.PkInt | localtv/search/utils.py:93 | an integer pk is itself; a string pk is its decimal parse, or nothing when it does not parse |
| SearchUtils.InBulk | localtv/search/utils.py:84-88 | a pk that is not an integer raises ValueError; otherwise the map holds exactly the active videos some hit names, each under its own id |
| SearchUtils.Normalized | localtv/search/utils.py:89-102 | the intended list: at most one entry per hit, each a video of the looked-up ones |
| SearchUtils.HitListed | localtv/search/utils.py:90-101 | one hit gives at most its own video, carrying the hit's watch count or 0 |
| SearchUtils.NormalizedAsWritten | localtv/search/utils.py:89-102 | the loop as written can fail only with NameError (the pk variable unbound) |
| SearchUtils.AsWrittenOnStringPks | localtv/search/utils.py:89-102 | when every hit's pk is a parsable string the loop as written gives the intended list |
| SearchUtils.IntPkRaises | localtv/search/utils.py:91-97 | a first hit whose integer pk is a key raises NameError as written, where one video is intended |
| SearchUtils.NormalizeSlice | localtv/search/utils.py:89-102 | the corrected loop computes exactly the intended list |
| SearchUtils.GetSlice | localtv/search/utils.py:80-107 | a negative bound is the AssertionError of QuerySet and SearchQuerySet slicing; otherwise an index slice is the ValueError of in_bulk or the normalised list of its hits, only active videos, and a database slice is exactly the rows of the slice |
| SearchUtils.SliceWithinLen | localtv/search/utils.py:80-110 | a slice that does not raise never holds more videos than __len__ reports |
| SearchViews.GetFormData | localtv/search/views.py:46-52 | the enforced filter and sort always win; every other key of the request data is kept unchanged; no key appears that neither supplied |
| SearchViews.GetFormDataIdempotent | localtv/search/views.py:46-52 | feeding the built data back in gives the same data |
| SearchViews.FilterValue | localtv/search/views.py:77-84 | no filter gives no value; a model filter gets the URL kwarg as a one-item list; any other filter gets the bare kwarg |
| SearchViews.IExact | localtv/search/views.py:95-97 | a pk lookup fails exactly when the value is not an integer; a name lookup matches regardless of case |
| SearchViews.Matching | localtv/search/views.py:95-97 | exactly the objects the case-insensitive lookup matches |
| SearchViews.GetObject | localtv/search/views.py:89-102 | no object without a model filter; an error for a missing kwarg; a 404 when nothing matches, a malformed pk included; the object when exactly one matches; an error when several do |
| SearchViews.LookupIgnoresCase | localtv/search/views.py:95 | a slug or name key is matched the same whatever its case |
| SearchViews.RedirectTarget | localtv/search/views.py:104-115 | no redirect without an object URL; a user goes to the author page and any other object to its own URL, unless that is the current path |
| SearchViews.RedirectSettles | localtv/search/views.py:104-115 | following the redirect lands on a page that is not redirected again |
| SearchViews.GetContextData | localtv/search/views.py:117-126 | the context carries the form, and the filtered object under the filter's name exactly for a model filter |
| SourcesViews.OrmSort | localtv/admin/legacy/sources_views.py:40-47 | a sort on type asks the database for the name in the same direction; any other sort is passed through |
| SourcesViews.NarrowBy | localtv/admin/legacy/sources_views.py:66-76 | no parameter keeps every source; a non-integer pk is an error, a missing row a 404; otherwise exactly the sources with that auto-category or auto-author remain |
| SourcesViews.Narrowed | localtv/admin/legacy/sources_views.py:49-76 | only the site's own feeds and saved searches remain, each matching the text search when one is given |
| SourcesViews.MergedSorted | localtv/admin/legacy/sources_views.py:90-99 | the joined list is a permutation of the feeds and searches, sorted on the lower-cased name or on the 'False'/'True' text of auto_approve, in the asked direction |
| SourcesViews.FilterBranches | localtv/admin/legacy/sources_views.py:78-88 | 'search' lists exactly the narrowed searches, 'user' exactly the narrowed video-service feeds, 'feed' exactly the other narrowed feeds |
| SourcesViews.MergedOrder | localtv/admin/legacy/sources_views.py:89-105 | with no filter every narrowed source is listed once, sorted on the name, on auto_approve ('False' before 'True'), or on the type with ties in name order |
| SourcesViews.SourceList | localtv/admin/legacy/sources_views.py:40-105 | the list fails exactly when the narrowing does (404 or an escaping error), and lists only narrowed feeds and searches, whatever the sort, auto_approve included |
| SourcesViews.SourcePage | localtv/admin/legacy/sources_views.py:106-110 | no page gives the first 15; a non-integer page escapes as an error; a 404 exactly for a page out of range; otherwise exactly that page of 15 |
| SourcesViews.RemoveOne | localtv/admin/legacy/sources_views.py:118-129 | no video is left pointing at the source; with 'keep' every video stays, without it exactly the source's videos go |
| SourcesViews.RemoveAllEffect | localtv/admin/legacy/sources_views.py:112-129 | no removed feed or search is left and no video points at one; with 'keep' no video is lost; without it every unrelated video survives and none is added |
| SourcesViews.RemoveSources | localtv/admin/legacy/sources_views.py:115-129 | the tables become the removal of the checked sources (for the 'remove' action) followed by the deleted ones |
| SourcesViews.SuccessRedirect | localtv/admin/legacy/sources_views.py:131-135 | the full path, extended by '&successful' when it has a query and by '?successful' otherwise |
| SourcesViews.SuccessRedirectHasQuery | localtv/admin/legacy/sources_views.py:131-135 | the redirect always carries a query string ending in the flag |
| SubmitForms.Duplicates | localtv/submit_video/forms.py:22-30 | exactly the visible videos of the current site matching the URL (as website or file URL) or the guid |
| SubmitForms.SubmitURLForm.ValidateUnique | localtv/submit_video/forms.py:22-48 | no match clears the duplicate attributes and passes; a match fails, records the first match's pk, and keeps the video only when it is published |
| SubmitForms.SubmitURLForm.CleanUrl | localtv/submit_video/forms.py:50-64 | returns exactly the specified URL or duplicate error, and an error leaves the form marked as a duplicate |
| SubmitForms.Defrag | localtv/submit_video/forms.py:51 | the result is a prefix of the URL holding no '#' |
| SubmitForms.CleanUrlSpec | localtv/submit_video/forms.py:50-64 | an accepted URL has no visible duplicate, and is the scraped link when there is one, the defragmented URL otherwise |
| SubmitForms.CleanUrlRejects | localtv/submit_video/forms.py:50-64 | a URL is rejected exactly when a visible site video has it as website or file URL, or has the differing scraped link, or the scraped guid |
| SubmitForms.InitInstance | localtv/submit_video/forms.py:74-86 | the instance is moved to the current site, awaits moderation, and gets the URL as website URL only when it had none; nothing else changes |
| SubmitForms.ContactFieldFor | localtv/submit_video/forms.py:78-82 | an authenticated user has no contact field; it is required exactly for an anonymous user on a site requiring email |
| SubmitForms.InitDirect | localtv/submit_video/forms.py:198-206 | the URL becomes the file URL, and a website URL equal to it is cleared |
| SubmitForms.DirectLinkKeepsUrlOnce | localtv/submit_video/forms.py:200-206 | a direct link with no other website URL is stored only as the file URL |
| SubmitForms.CleanThumbnail | localtv/submit_video/forms.py:92-101 | 'thumbnail' is always removed; its value fills 'thumbnail_url' only when that is missing or empty |
| SubmitForms.CleanEmbed | localtv/submit_video/forms.py:189-195 | a KeyError exactly when 'embed' is absent; otherwise 'embed' is removed and fills 'embed_code' only when that is empty |
| SubmitForms.PostCleanError | localtv/submit_video/forms.py:103-119 | the duplicate error is raised exactly when a visible video of the site shares the instance's website URL, file URL or guid |
| SubmitForms.InitialInstanceHasIdentifier | localtv/submit_video/forms.py:74-206 | an instance built from a non-empty URL always has a website or file URL, so the duplicate query never matches everything |
| SubmitForms.SaveSubmission | localtv/submit_video/forms.py:125-214 | the save raises exactly when the form fetches file data, there is a file URL and the HEAD request fails; otherwise the user and contact come from an authenticated submitter; an admin's video is published and approved when submitted; the file's length and type come from the HEAD response when one was made and are kept otherwise; a thumbnail file clears the URL; a thumbnail fetch is queued exactly for a URL without a file; given tags replace the old ones |
| SubmitForms.FileUrlData | localtv/models.py:560-575 | without a file URL the video is unchanged; with one, a failed HEAD request raises and a successful one sets the file length and MIME type from its headers |
| SubmitForms.AdminSubmissionPublished | localtv/submit_video/forms.py:132-146 | an admin's submission that is saved is live at once, approved at the moment it was submitted |
| SubmitViews.AdminMaySubmit | localtv/submit_video/views.py:21-29 | a site admin may always submit, whatever the login and button settings |
| SubmitViews.AnonymousSubmit | localtv/submit_video/views.py:21-29 | an anonymous visitor may submit exactly when the site does not require login |
| SubmitViews.Route | localtv/submit_video/views.py:75-82 | the scraped view exactly for a scraped video with an embed code or a non-expiring file; otherwise the direct view exactly for a video-file URL; the embed view for the rest |
| SubmitViews.SubmitUrlValid | localtv/submit_video/views.py:69-91 | the success URL is the routed view's URL, '?', and the original query; the session gains the scraped video and cleaned URL under the submission key and nothing else changes |
| SubmitViews.HandOver | localtv/submit_video/views.py:86-124 | what the first step stores for a non-empty URL lets the second step run instead of redirecting back |
| SubmitViews.SubmitVideoValid | localtv/submit_video/views.py:170-183 | exactly the site's hidden videos sharing an identifier with the saved one are deleted, and the session entry is removed |
| SubmitViews.CleanUpOnlyHiddenDuplicates | localtv/submit_video/views.py:172-180 | the clean-up keeps every video that is not hidden or not on the site, leaves no hidden duplicate, and adds nothing |
| SubmitViews.ThanksVideo | localtv/submit_video/views.py:201-210 | only an admin with a video id sees a video, the one with that id; a missing id is an error; everyone else gets an empty context |
| SubmitViews.UrlContextData | localtv/submit_video/views.py:93-104 | the context carries the form's duplicate attributes; a shown video is published, flagged as a duplicate, and given with its pk |
| Tasks.UpdateSources | localtv/tasks.py:59-68 | queues one feed update per active auto-updating feed, then one search update per auto-updating saved search, in table order |
| Tasks.UpdateSourcesExactly | localtv/tasks.py:59-68 | a feed is queued exactly when it is active and auto-updating, a saved search exactly when it is auto-updating |
| Tasks.FeedQueuedIff | localtv/tasks.py:61-64 | a feed update is queued for a pk exactly when an active auto-updating feed has it |
| Tasks.SearchQueuedIff | localtv/tasks.py:66-68 | a search update is queued for a pk exactly when an auto-updating saved search has it |
| Tasks.SourceImport.constructor | localtv/tasks.py:96-108 | a new import is STARTED with no videos imported or skipped and no errors |
| Tasks.Resolve | localtv/tasks.py:137-153 | a PENDING video of the import becomes ACTIVE when the import auto-approves and the receivers allow it, UNAPPROVED otherwise; every other video is unchanged |
| Tasks.ActivePks | localtv/tasks.py:158-159 | exactly the pks of the import's ACTIVE videos |
| Tasks.ResolveLeavesNoPending | localtv/tasks.py:137-153 | after the first stage no video of the import is PENDING; a video is ACTIVE exactly when it was, or was PENDING and auto-approved; only the status changes |
| Tasks.MarkImportPending | localtv/tasks.py:96-167 | a missing STARTED import is retried at most ten times and changes nothing; no total is a retry that only touches last_activity; the counts come from the stored rows and an incomplete import is retried; a complete one resolves its videos, becomes PENDING, queues its ACTIVE videos for indexing and queues the second stage |
| Tasks.SecondStageDone | localtv/tasks.py:191-217 | without a search index, or with no ACTIVE videos, the stage is done; otherwise exactly when the index holds as many of them |
| Tasks.MarkImportComplete | localtv/tasks.py:170-227 | a missing PENDING import is retried at most ten times and changes nothing; otherwise it becomes COMPLETE when the second stage is done, a feed import also activating its feed, and is retried while it stays PENDING |
| Tasks.ActivateFeed | localtv/tasks.py:219-221 | the feed with the import's pk becomes ACTIVE and every other feed is unchanged |
| Tasks.VideoFromVidscraperVideo | localtv/tasks.py:230-306 | a non-running import is retried; a load or validation failure records a skip and stores nothing; a failed relation save records an error, stores nothing and re-raises; otherwise the video is stored under a fresh pk, with `clear_rejected` the site's rejected duplicates of it are deleted, and its thumbnail fetch is queued when it has a thumbnail URL; every run on a running import records exactly one skip or leaves the new video stored |
| Tasks.SaveScraped | localtv/tasks.py:287-297 | a video that loaded and validated is inserted under the next pk; when its relations fail to save it is deleted again, an unexpected error is recorded and the error re-raised; otherwise, with `clear_rejected`, the site's rejected duplicates of it are deleted and it stays stored |
| Tasks.ClearRejected | localtv/tasks.py:295-296 | after `clear_rejected_duplicates` a row remains exactly when it was there and is not a rejected duplicate of the saved video; the saved video remains |
| Tasks.VideoSaveThumbnail | localtv/tasks.py:308-347 | a missing video or empty URL changes nothing; an invalid URL erases the URL and the thumbnail flag; a non-200 or unreadable response is a retry that changes nothing; an image that cannot be opened re-raises and stores nothing; a readable image is saved as the original and resized thumbnail files, and the video gets the extension and the flag |
| Tasks.HaystackUpdate | localtv/tasks.py:370-392 | the given pks in the index queryset are updated; with remove the others are removed, without it nothing is |
| Tasks.BatchesCover | localtv/tasks.py:434-440 | the slices give back every pk once and in order, and there are ceil(total / batch size) of them |
| Tasks.BatchesBounded | localtv/tasks.py:437-440 | every slice is non-empty and at most the batch size |
| Tasks.BatchUpdateQueue | localtv/tasks.py:410-440 | queues one index update per slice of the selected pks, in order |
| VideoModel.When | localtv/models.py:695-704 | the display date is when_published when known, else when_submitted |
| Managers.BestDateOfUnapprovedIsWhen | localtv/models.py:695-704 | with use_original_date, a video never approved sorts by the date Video.when shows |
| VideoModel.Submitter | localtv/models.py:680-693 | the first of the video's own user, its feed's user, its saved search's user, or none |
| VideoModel.SubmitterPrefersOwnUser | localtv/models.py:685-686 | a video with its own user is credited to that user whatever its feed says |
| VideoModel.StripDescription | localtv/models.py:672-678 | only the description changes, to its tag-stripped form |
| VideoModel.OriginalThumbPath | localtv/models.py:656-662 | the original thumbnail lies under localtv/video_thumbs/ |
| VideoModel.ResizedThumbPath | localtv/models.py:664-670 | every resized thumbnail lies under localtv/video_thumbs/ |
| VideoModel.ResizedThumbPathInjective | localtv/models.py:664-670 | two resized paths are equal only for the same video and size |
| VideoModel.OriginalAndResizedDiffer | localtv/models.py:656-670 | the original and a resized thumbnail never share a file |
| VideoModel.PasteOffset | localtv/models.py:634-642 | no paste when the fitted image has the canvas size; otherwise the vertical offset when it is too short, the horizontal one otherwise |
| VideoModel.PasteCentred | localtv/models.py:634-642 | only one axis is offset, and a fitting image lies inside the canvas with margins differing by at most one pixel |
| VideoModel.ResizedFile | localtv/models.py:631-647 | each size gives a PNG of exactly that size holding the fitted image at the paste offset |
| VideoModel.ResizedFiles | localtv/models.py:631-654 | one file per size processed, at that size's path, and no other file |
| VideoModel.DistinctSizesDistinctPaths | localtv/models.py:649-654 | writing one size never overwrites another size's file |
| VideoModel.ResizeThumbnail | localtv/models.py:623-654 | the storage gains exactly the resized files for every size and keeps every other file |
| VideoModel.ResizedThumbnailsHaveTheirSize | localtv/models.py:631-654 | every size's file exists afterwards as a PNG of exactly that size |
| VideoModel.SaveThumbnailFromFile | localtv/models.py:588-621 | an unreadable image fails and touches nothing; otherwise the extension is the lower-cased format, the original is stored at its path, the resized files are written and the video has a thumbnail |
| VideoModel.AncestorsFuel | localtv/models.py:384-389 | a parent chain that ends within some steps ends the same way given more |
| VideoModel.Depth | localtv/models.py:380-389 | the loop counts exactly the category's ancestors |
| VideoModel.ChildDepth | localtv/models.py:380-389 | a child is one level deeper than its parent |
| VideoModel.Roots | localtv/models.py:406 | exactly the site's categories without a parent |
| VideoModel.Children | localtv/models.py:404-405 | exactly the categories whose parent is the given one |
| VideoModel.AccumulateParentsFirst | localtv/models.py:401-405 | every listed category is of the starting level or comes after its parent |
| VideoModel.AccumulateMembers | localtv/models.py:401-405 | every category of the starting level is listed, and nothing outside the table |
| VideoModel.InOrder | localtv/models.py:398-407 | the result is the pre-order listing from the site's roots |
| VideoModel.AccumulateInto | localtv/models.py:401-405 | the appending loop adds exactly the pre-order listing of the level |
| VideoModel.InOrderParentsFirst | localtv/models.py:398-407 | every listed category is a site root or follows its parent; every site root is listed; nothing outside the table is |
| VideoModel.InOrderListsDescendants | localtv/models.py:398-407 | every category whose parent chain reaches a root of the site is listed |
| VideoModel.UserIsAdminFor | localtv/models.py:130-144 | an anonymous or inactive user is never an admin, a superuser always, anyone else exactly for a site in their admin list |
| VideoModel.WatchIp | localtv/models.py:759-761 | REMOTE_ADDR, '0.0.0.0' without one, and behind the loopback address the forwarded address when given |
| VideoModel.WatchAdd | localtv/models.py:752-768 | the watch records the video, the time and the address, and the user exactly when authenticated |
| VideoPage.VisibleVideos | localtv/views.py:64-68 | exactly the videos of the current site, and for a non-admin only the ACTIVE ones |
| VideoPage.GetObject | localtv/views.py:64-71 | a found video has the pk and the site, and is ACTIVE for a non-admin; nothing is found only when no such video is visible |
| VideoPage.AdminSeesAllVisitorSees | localtv/views.py:64-68 | whatever a visitor can open, an admin can open too |
| VideoPage.IndexFrom | localtv/views.py:113 | the first occurrence of the needle at or after the start, or none exactly when there is none |
| VideoPage.SchemeSeparator | localtv/views.py:111-113 | in a URL starting with http:// or https:// the first '://' ends the scheme |
| VideoPage.StripScheme | localtv/views.py:111-113 | an http:// or https:// prefix is cut off; any other referrer is kept |
| VideoPage.ReferredPath | localtv/views.py:108-115 | a path exactly for a non-empty referrer and host where the referrer without scheme starts with the host, and then it is the rest |
| VideoPage.ReferredPathOf | localtv/views.py:108-115 | the string handling as written computes exactly the referred path |
| VideoPage.ReferrerOfOwnPage | localtv/views.py:108-115 | a link from a page of this host gives that page's path |
| VideoPage.VideoCategories | localtv/views.py:102 | exactly the video's categories |
| VideoPage.ChooseCategory | localtv/views.py:101-130 | none exactly when the video has no category; otherwise one of its categories, the referred one of this site when the referrer resolves to it, else the first |
| VideoPage.PopularFormData | localtv/views.py:99-131 | the 'popular' sort with no other filter, narrowed to the chosen category when there is one |
| VideoPage.PopularLimitedToCategory | localtv/views.py:131-135 | the popular videos shown under a category all belong to it |
| VideoPage.ShownItems | localtv/views.py:146-158 | only items of the video, none invented |
| VideoPage.ShownItemsAreVisible | localtv/views.py:146-158 | an item is listed exactly when the user may see its playlist: admins all, users public or own ones, visitors public ones |
| VideoPage.PlaylistItem | localtv/views.py:160-176 | an item is shown only for the parameter's playlist, when the user may see it and the video is in it |
| VideoPage.PlaylistItemShownIff | localtv/views.py:160-176 | with distinct pks the item is shown exactly when the parameter names a visible playlist holding the video |
| VideoPage.ContextFor | localtv/views.py:88-178 | the context holds the video, the admin flag, the chosen category, the popular search for it (with the corrected popular sort; as written its chain makes NormalizedVideoList raise, see Findings), and the playlist entries exactly when playlists are enabled, each as visible to the user |
| VideoPage.OwnPlaylists | localtv/views.py:137-144 | the user's own playlists, offered exactly to an authenticated user when playlists are on for everyone or the user is an admin |
| VideoPage.PlaylistItems | localtv/views.py:137-159 | present exactly when playlists are enabled, holding exactly the video's playlists the user may see |
| VideoPage.RequestedItem | localtv/views.py:160-176 | a requested item needs playlists enabled, the video in the playlist, and the user allowed to see it |
| VideoPage.Get | localtv/views.py:70-80 | a 404 for a video the visitor may not see; a redirect without a slug or when iri_to_uri of the path is not the canonical URL; otherwise the page, built with the corrected popular sort (see Findings), and exactly then one watch is recorded |

## Left out

- Django plumbing: template rendering, response objects, decorators, URL configurations, signal declarations and the API. These are framework configuration. Views are modelled as functions from a request record to an outcome: a redirect, a status code or a context record.
- Network and file I/O: feedparser, vidscraper, urllib downloads, the HEAD request of `try_to_get_file_url_data`, default_storage and e-mail sending. Each is a parameter giving its result (a failed HEAD request is `SubmitForms.HeadFailed`), or an effect recorded in the returned state. The raw Content-Length header is taken as an integer; its conversion when the row is saved is not modelled.
- Image processing: PIL decoding, scaling and PNG encoding. The fitted size is a parameter, and only the paste offset, the canvas size and the file paths are modelled.
- Celery: scheduling, `.delay`, `retry` and the random exponential back-off in `_haystack_database_retry`. These are concurrency and randomness. A task's decision to retry is an outcome of the model, and re-running it is not modelled.
- Haystack, Whoosh and Xapian back ends: the Whoosh `__exact`/`__in` workarounds in `localtv/search/utils.py`, raw SQL in `extra()`, index internals and the signal hookup in `localtv/search_indexes.py`. The search index is a table of hits.
- SHA-1 secret generation for admin feeds. It is a foreign hash.
- Regular expressions and HTML: `slug_re`, the video service regexes, `strip_tags`, `sanitize`, URL resolution, `edit_string_for_tags` and `simpletimesince`. Each is a given function or predicate. `localtv/utils.py` and `localtv/templatetags/filters.py` are not part of this model.
- Schema migrations other than 0094, and the frozen South model dictionaries. They are pure DDL.
- The test modules. They serve only as evidence of intended behaviour.
- Glue views with no logic of their own: the other legacy admin views, `localtv/admin/views.py`, `localtv/admin/design_views.py` and the user-profile views and riffs.
- Wall-clock time. `now` is a parameter, and one request uses a single value of it.
- Database order. A NULL in an ordering column orders before every value (`SearchUtils.DateKey`), as SQLite and MySQL order it; PostgreSQL, which puts NULLs first in a descending order, is not modelled. Collation and the order of many-to-many rows are not modelled. Sorts are stable over the table order, and ties keep that order.
- Search backend: `auto_query` is a parameter of the search environment. `SearchForms.ValidSearchEnv` states what it is run on in the source, the index queryset of the site's ACTIVE videos, so its hits are among them; the ranking itself is not modelled.
- Persistence. Saving, primary-key assignment and `distinct()` are not modelled: a saved record is written back into its table.
- Tag lists. Duplicate tags are not removed.
- Riffs.FeedCreateSave: the feed's URL field is `form.feedUrl`, read where `localtv/riffs.py` reads `Feed.original_url` (line 60); the two schema versions of that field are unified into one.
- Duplicate definitions. The copies in `localtv/admin/riffs.py` and `localtv/admin/forms.py` of `latest_import`, `video_count`, `FeedCreateForm.save` and `VideoForm.save` are the same code as in `localtv/riffs.py`, and `Riffs` models them once.
- Paginator: Django's paginator is not part of this model. `Paging` models only the page arithmetic that the views rely on.
- Category cycles: `VideoModel.Depth` requires the parent chain to end within as many steps as there are categories, because `depth` would loop forever on a cycle among a category's ancestors. `VideoModel.Accumulate` takes a fuel bound on the depth of its recursion; `in_order` starts from the roots, so it never reaches a cycle that has no root, and the fuel only bounds how deep below a root the listing goes.
- Feed.update_items: it does not model time-zone conversion of entry dates, or the urlopen errors of the thumbnail download beyond CannotOpenImageUrl.
- `Video.from_vidscraper_video` is not modelled beyond the fields that `Tasks.VideoFromVidscraperVideo` sets.
- PlaylistFormSet: its definition is commented out in `localtv/playlists/forms.py` (lines 35-44), while `localtv/playlists/views.py` still calls `forms.PlaylistFormSet` at lines 98 and 102. So the playlist index, as shipped, raises AttributeError before it reaches any bulk action. `PlaylistViews.ApplyBulkAction` models the bulk actions as written at lines 105-120 of `localtv/playlists/views.py`, code that cannot run in this version.
- Playlist index listing: its SortHeaders ordering, the create form, the edit view and `add_video` are not modelled.
- Notification e-mails: the e-mails of `approve_video` and `preview_video`, `send_notice`, and the templates are not modelled.
- Tasks:
  - Signal receivers are not modelled. The index counts are inputs.
  - `video_save_thumbnail`: an unreadable thumbnail (the IOError branch) is modelled as a retry; only the re-raise when the task is called directly (`called_directly`, localtv/tasks.py:343-344) is not modelled.
  - `feed_update` and `search_update` only call `Feed.update` and `SavedSearch.update`, which are not modelled beyond queueing.
  - `haystack_remove` is not modelled.
  - The start/end/date_lookup filters of `haystack_batch_update` are not modelled.
- Sources admin:
  - The SortHeaders helper is not modelled.
  - Formset edits and `EditSearchView`/`DeleteSearchView` are not modelled. They are generic views.
  - A source's type is a parameter.
- Bulk edit:
  - `VideoFormSet.save` is not modelled.
  - The `just_the_author_field` branch is not modelled.
  - The related names used by the filters are parameters.
- Category admin: the formset's extra forms are not modelled.
- Settings: `SettingsForm.save` is not modelled.
- ProfileForm `__init__` initial values are not modelled.
- ProfileForms.Account.Save: the profile is always saved at once. With `commit=False` the source defers the profile save into `save_m2m` (localtv/user_profile/forms.py:80-85); that deferral, and a caller that never runs `save_m2m`, are not modelled.
- Context: the context is a record rather than a dictionary, and the MPTT order of the categories is not modelled.
- Inline edit:
  - The CommentFlag is a field of the comment.
  - `content_type` is implicit.
  - A draft comment has the placeholder id 0 until it is saved.
  - A second save after an empty save is not modelled.
  - `EditVideoForm`'s restriction of category choices to the video's site is not modelled.
  - The description and website forms are plain model forms and are not modelled.
- Video page:
  - URL resolution, `get_absolute_url` and `iri_to_uri` are parameters; `iri_to_uri` is the given function `iriToUri` of the page environment.
  - Whether the popular search form is valid is a parameter.
  - MultipleObjectsReturned cannot arise, because (slug, site) is unique.
  - The order of playlist items is not modelled.
  - `IndexView`, `about`, `share_email` and `get_template_names` are not modelled.
- Listing: `SiteListView` is not modelled.
- Feeds: `items`, `get_object`, the feed titles, `item_extra_kwargs` and the cache key of `localtv/feeds/views.py` are not modelled.
- Search views: `paginate_by` is not modelled.
- Search utilities: `NormalizedVideoList.__iter__` is not modelled.
- Submit views:
  - `SubmitVideoView.get_initial`, `get_object` and `get_context_data` are not modelled beyond the session hand-over.
  - The `submit_finished` signal is not modelled.
  - `is_video_url` is a parameter.
- File migration: duplicate urls within one video's files are not modelled, and neither is NULL ordering of lengths.
- SubmitViews.SecondStepRedirects: its contract restates its body. It has no row.
- LegacySubmit.SaveBase: its contract restates its body. It has no row.
- Strings.Lower, Strings.IsSpace, Strings.ParseInt: ASCII only. Python's unicode `lower()`, `split()` and `int()` also handle non-ASCII letters, whitespace and digits, which the model does not.
- Tasks.VideoFromVidscraperVideo: `Video.clear_rejected_duplicates` is not part of this model, so which rejected videos count as duplicates of the new video is the parameter `dup`.
- FeedViews.AddDomain: Django's `iri_to_uri` on the relative branch is the given function `iriToUri`; only its keeping of an 'http://' prefix is assumed, by `FeedViews.AddDomainIdempotent`.
- Query.HasValue: the `featured_datetime` lookup of the search form's featured sort and filter (`localtv/search/forms.py`, lines 145 and 169) is read as the video's `last_featured`, which is what the model and the index field (`localtv/search_indexes.py`, line 73) are called. The index's categories are read as `v.categories`, where `prepare_categories` (`localtv/search_indexes.py`, line 165) reads `video.all_categories`, which this `localtv/models.py` does not define.
- InlineEdit.SavedCommentLost: database constraints are not modelled. Comment.site and CommentFlag.user are non-null columns, and the editor's comment has no user, so the save at `localtv/inline_edit/forms.py` lines 117-126 would most likely raise IntegrityError. The comments and their flags carry no user in the model, and `InlineEdit.SavedCommentFound` assumes that the corrected save goes through.
- SearchUtils.Len: states only that the length is that of the hit list, as the source does. It has no row.

## Findings

Each finding is modelled twice: a member for the code as written, with a lemma exhibiting the discrepancy, and a corrected member that the rest of the model uses.

| source | as written | input that shows it | evidently intended | confidence | as-written member | corrected member |
|---|---|---|---|---|---|---|
| localtv/user_profile/forms.py:42-53 | `clean_name` tests the name for emptiness before `split()`, so a name of only whitespace passes the test and `parts[0]` fails on the empty list | name `' '` | a blank name clears both names, like an empty one | not executed | ProfileForms.BlankNameCrashes | ProfileForms.CleanNameFixed |
| localtv/search/utils.py:89-102 | `pk` is recomputed only when `r.pk` is not already a key, so a hit whose integer pk is a key reads `pk` unbound (first hit) or left over from an earlier hit | one hit with the integer pk 1, naming an active video | each hit gives the video its own pk names, once | not executed | SearchUtils.IntPkRaises | SearchUtils.NormalizeSlice |
| localtv/search/utils.py:191-195 | with the index off, `PopularSort.sort` returns `itertools.chain(popular, not_popular)`, which is not a queryset; every caller then calls a queryset method on it: `NormalizedVideoList.__init__` calls `select_related` (line 73; the popular sidebar of every video page, localtv/views.py:134-135 and 43, and the feeds, localtv/feeds/views.py:156), `CompatibleListingView.get_queryset` calls `exclude` (localtv/listing/views.py:67-73), and the /listing/popular/ page (localtv/listing/urls.py:15-20) hands it to the paginator | any database search sorted by 'popular', such as the popular form of any video page | the watched videos first, most watched first, then the others, as a list the callers can slice and count | not executed | SearchUtils.PopularChainRaises | SearchUtils.ApplySort |
| localtv/forms.py:65-66 | when the scraped link differs from the URL, the recheck is given the original URL again, so the link is never checked | a URL whose scraped link is a visible video's external url | the recheck uses the scraped link | not executed | LegacySubmit.LinkDuplicateAccepted | LegacySubmit.FixedChecksLink |
| localtv/management/commands/review_status_email.py:15 | the bound method `weekday` is compared with 0, so the weekly notice is never sent | a Monday with a video queued in the past week | the weekly notice goes out on Mondays | not executed | ReviewEmail.MondayWeeklyMissed | ReviewEmail.FixedWeeklyOnlyOnMonday |
| localtv/inline_edit/forms.py:111-116 | the new editor's comment is created without a site, while `__init__` (lines 90-94) looks comments up by the video's site. Comment.site is a non-null column, so the save most likely fails with IntegrityError; if it went through, the comment would never be found again | a committed save with non-empty text, then a new form for the same video | the comment is stored on the video's site | not executed | InlineEdit.SavedCommentLost | InlineEdit.SavedCommentFound |
