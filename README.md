# acts_as_taggable_on_steroids, modelled in Dafny

This project models the core of the Rails plugin `acts_as_taggable_on_steroids`.
There are two tables: `tags (id, name)` and the polymorphic join table
`taggings (taggable_type, taggable_id, tag_id, created_at)`.

It models two parts of the plugin.

1. **A taggable record's tag list.** The record keeps the pending list in the
   `@tag_list` memo and, when the model has one, in the cached tag-list column.
   At save time `save_tags` brings the taggings in line with that list.
   - `Taggable.TaggableRecord` is a class over a shared `Tags.TagStore`.
   - `TagStore` holds the two tables and inserts tags in
     `find_or_create_with_like_by_name`.
   - `save_tags` is a loop. It is proved against the fold `SaveTagsSpec`, and
     the properties of that fold are proved as lemmas.
2. **The query builders.** These are `find_options_for_find_tagged_with` and
   `find_tagged_with`, `joins_for_match_all_tags`, the two `tags_condition`
   helpers, `find_related_tags`, `find_options_for_tag_counts` with the class and
   instance `tag_counts`, and `Tag.options_for_counts`, `Tag.counts` and
   `Tag.find_from`.
   - Each returns an abstract query instead of SQL text. `FindSpec.FindQuery`
     holds joins with aliases and tag ids, conjuncts, DISTINCT and the
     remaining options. `CountSpec.CountsQuery` holds joins, conditions, HAVING
     conjuncts and the remaining options.
   - Each query has a meaning over the tables: `FindSpec.EvalFind` and
     `CountSpec.EvalCounts`. That meaning is what the lemmas about the modes use:
     - any-of is a union;
     - match-all is an intersection;
     - exclude is a complement;
     - related tags co-occur with a source tag;
     - counts are grouped per tag, with inclusive windows and frequency bounds.

Option hashes are `map<string, Value>`. Ruby truthiness is modelled exactly:
only `nil` and `false` are false. Each `options.delete(k) if options[k]` is
modelled as written, so a key whose value is falsy stays in the hash. Through
`update` (in `options_for_counts` and `find_options_for_tag_counts`) such a key
then replaces the value the library built.

The caller's own SQL fragments (`:conditions` and `:joins`) are opaque values.
The meaning functions take caller-supplied interpretations of them: the `sql`
parameter of `EvalFind` and the `Env` of `EvalCounts`. A query that refers to
an alias that is not bound, or binds one twice, is not valid SQL; its meaning
is `None`.

Before any of that, `find` checks the keys of the remaining options
(`FindSpec.Find`, `CountSpec.FindCounts`). A key it does not accept is an
`Err`, where Rails raises ArgumentError. The conditional deletes can leave such
keys behind: a `:match_all` key when `:exclude` is truthy, and a time or
frequency bound given with a falsy value.

Modules:
- `Schema`: the tables, `Option` and `Result`, and LIKE, modelled as
  case-insensitive equality on ASCII letters.
- `Values`: option values, row conditions and joins.
- `FindSpec` and `CountSpec`: the two query forms and what they mean.
- `Tags`: `lib/tag.rb`.
- `Finders`: the class methods in `lib/acts_as_taggable.rb`.
- `Taggable`: the instance methods in `lib/acts_as_taggable.rb`.

## Model

| member | source | states |
|---|---|---|
| Schema.NameMatchesIsEquivalence | lib/tag.rb:20-22 | Name matching as modelled for LIKE is reflexive, symmetric and transitive. |
| Tags.EqualsOnlyTags | lib/tag.rb:25-27 | A tag never equals anything that is not a tag. |
| Tags.EqualsReflexive | lib/tag.rb:25-27 | A tag equals itself, whether the copy handed to `==` is saved or not. |
| Tags.EqualsSymmetric | lib/tag.rb:25-27 | Between saved tags `==` is symmetric: a equals b exactly when b equals a. |
| Tags.UnsavedEqualsSaved | lib/tag.rb:25-27 | A tag that equals an unsaved tag b also equals b saved, and b saved equals it. A saved equal with a different id is equal unsaved as well, because only a shared name can make it equal. |
| Tags.EqualsNotTransitive | lib/tag.rb:25-27 | `==` is not transitive, even between saved tags. One tag can share its id with a second tag and its name with a third, while the second and the third are not equal. |
| Tags.Equals | lib/tag.rb:25-27 | No ensures of its own. EqualsOnlyTags, EqualsReflexive, EqualsSymmetric, UnsavedEqualsSaved and EqualsNotTransitive state what `==` means. |
| Tags.Count | lib/tag.rb:33-35 | Its own ensures only restate the read of the `count` column. CountReadsAggregate and CountedTagsArePositive state what the value is on a tag `Tag.counts` returns. |
| Tags.CountReadsAggregate | lib/tag.rb:33-35 | On a tag that `Tag.counts` returns, `count` is the number of that tag's joined rows that pass the conditions, and that number passes every HAVING conjunct. |
| Tags.TagsCondition | lib/tag.rb:115-120 | The condition is nil exactly when the name list is empty. Otherwise it keeps a tag exactly when its name matches one of the names. |
| Tags.Lookup | lib/tag.rb:107 | The lookup returns the table's tags that satisfy the condition, and only those. |
| Tags.FindFrom | lib/tag.rb:89-109 | A single tag gives `[tag]`. An array gives its saved tags first, in order, followed by exactly the table's tags whose names match the remaining elements (unsaved tags are converted to their names). When no names remain, the saved tags are returned without a lookup. A list gives exactly the matching tags. |
| Tags.OptionsForCounts | lib/tag.rb:51-83 | The call fails exactly when a key outside the eight allowed keys is given; the error names those keys. Otherwise the remaining options are the caller's keys that were not deleted, and HAVING always starts with `count > 0`. |
| Tags.OrderAndLimitPassThrough | lib/tag.rb:78-82 | The caller's `:order` and `:limit` reach the result options unchanged. |
| Tags.ConditionsNilWhenNoneGiven | lib/tag.rb:55-82 | For every accepted options hash, the conditions are nil exactly when a falsy `:conditions` key is present (it survives the deletions and replaces them in `update`), or when none of `:conditions`, `:start_at` and `:end_at` is given. |
| Tags.FalsyConditionsDropBounds | lib/tag.rb:59-82 | For every accepted options hash with a falsy `:conditions` key, the query has no condition at all, whatever time bounds are given, and that falsy value reaches `find` as given. |
| Tags.RefusedAreFalsyBounds | lib/tag.rb:55-82 | Of the options left for `find`, the keys `find` does not accept are exactly the bounds given with a falsy value. |
| Tags.CountsRefuseFalsyBounds | lib/tag.rb:47-82 | For every accepted options hash, `Tag.counts` raises exactly when `:start_at`, `:end_at`, `:at_least` or `:at_most` is present with a falsy value. Such a key is not deleted, `find` refuses it, and the error names exactly those keys. |
| Tags.CountsWithinBounds | lib/tag.rb:47-83 | With only time, frequency, order and limit options, `Tag.counts` succeeds exactly when no bound is falsy. It then returns `(tag, n)` exactly when the tag is in the table and n is the number of its taggings with `start_at <= created_at <= end_at`. In addition, n must be at least 1, at least `at_least` when given, and at most `at_most` when given. |
| Tags.Counts | lib/tag.rb:47-49 | No ensures of its own. CountsRefuseFalsyBounds, CountsWithinBounds, CountedTagsArePositive, BlankConditionsInvalid and CountReadsAggregate state what it returns. |
| Tags.BlankConditionsInvalid | lib/tag.rb:58-64 | A `:conditions` that is truthy but blank is wrapped as `( )`, so `Tag.counts` runs invalid SQL (`None`) whenever it does not raise. |
| Tags.CountedTagsArePositive | lib/tag.rb:72-78 | Every tag `Tag.counts` returns is in the table and has a count of at least 1. |
| Tags.FirstLike | lib/tag.rb:22 | The index found is that of the first tag whose name matches. None means that no tag matches. |
| Tags.FindOrCreate | lib/tag.rb:21-23 | No ensures of its own. FindOrCreateFacts and FirstLike state what it returns. |
| Tags.FindOrCreateFacts | lib/tag.rb:21-23 | The tag returned matches the name. The table keeps every row and grows by at most one row. It grows exactly when no tag matched, and the new row is the returned tag, with exactly the given name. |
| Tags.TagStore.FindOrCreateWithLikeByName | lib/tag.rb:21-23 | The store moves to the state of `FindOrCreate`: the first matching tag, or a new tag with the next id. Taggings are unchanged, the returned tag's id is in the table, and the store invariant (unique ids, and every tagging points to a tag) is kept. |
| CountSpec.GroupsExactly | lib/tag.rb:75-78 | The aggregate returns `(tag, n)` exactly when the tag is in the table, n is the size of its group, n > 0, and every HAVING conjunct holds for n. |
| CountSpec.CountsRespectHaving | lib/tag.rb:72-78 | Every returned record is a tag of the table. Its count is at least 1, satisfies HAVING, and equals its group's size. |
| CountSpec.JoinAllKeeps | lib/tag.rb:66-70 | Every row of a tag's group belongs to that tag and satisfies the ON clause of every join. |
| FindSpec.SelectDistinct | lib/acts_as_taggable.rb:131 | Under DISTINCT, no taggable is returned twice. |
| Finders.TagIdsCondition | lib/acts_as_taggable.rb:196-201 | The private `tags_condition` is nil exactly for no tags. Otherwise its id list holds exactly the tags' ids. |
| Finders.TagsConditionForExclude | lib/acts_as_taggable.rb:205-214 | The exclusion tests that the row is not a taggable of the model's type tagged with one of exactly these tag ids. |
| Finders.AllCarried | lib/acts_as_taggable.rb:140-158 | The match-all joins, one per tag, all have rows for a taggable exactly when it carries every one of the tags. |
| Finders.MatchAllAliasesDistinct | lib/acts_as_taggable.rb:143-145 | The match-all aliases are pairwise distinct. |
| Finders.BuiltKeysWin | lib/acts_as_taggable.rb:131-134 | Under `reverse_merge!` the built `:select`, `:joins` and `:conditions` win: changing the caller's `:select` or `:joins`, or a falsy caller `:conditions`, leaves the built query unchanged. |
| Finders.FindOptionsForFindTaggedWith | lib/acts_as_taggable.rb:97-135 | The result is `{}` exactly when no tag is found. Otherwise the query is DISTINCT and carries `FindRest` of the caller's options. |
| Finders.NoTagsNoRows | lib/acts_as_taggable.rb:92-100 | When no tag is found, the options are `{}` and `find_tagged_with` returns `[]`, never an unfiltered find. |
| Finders.RejectsUnknownKeys | lib/acts_as_taggable.rb:92-134 | Once a tag is found, `find_tagged_with` raises exactly when a caller key other than `:exclude` is outside `find`'s accepted keys, counting `:match_all` only when `:exclude` is truthy. The error names exactly those keys. |
| Finders.AnyOfIsUnion | lib/acts_as_taggable.rb:104-133 | With neither flag, `find_tagged_with` succeeds exactly when `find` accepts the remaining keys. On success the query is invalid SQL (`None`) exactly when the caller's `:conditions` is truthy but blank, because joining it with `" AND "` leaves a dangling AND. Otherwise a taggable is returned exactly when it is a row of the model, the caller's condition accepts it, and it carries at least one found tag. |
| Finders.MatchAllIsIntersection | lib/acts_as_taggable.rb:112-133 | With `:match_all` and without `:exclude`, the joins are `joins_for_match_all_tags`, and the call succeeds exactly when `find` accepts the remaining keys. A taggable is then returned exactly when it is in the model, the caller's condition accepts it, and it carries every found tag. |
| Finders.ExcludeIsComplement | lib/acts_as_taggable.rb:104-133 | With `:exclude` and without a truthy `:match_all`, no join is added. The call succeeds exactly when `find` accepts the remaining keys, so a falsy `:match_all` key makes it raise. On success the query is invalid SQL exactly when the caller's `:conditions` is truthy but blank. Otherwise a taggable is returned exactly when it is in the model, the caller's condition accepts it, and it carries none of the found tags. |
| Finders.MatchAllAndExcludeIsEmpty | lib/acts_as_taggable.rb:104-134 | With both flags, the joins come from match-all and the last conjunct from exclude, so the built query selects no taggable (or is invalid SQL when the caller's `:conditions` is truthy but blank). `:match_all` survives into `find`, so `find_tagged_with` raises, naming `:match_all`. |
| Finders.ExcludeKeepsMatchAllKey | lib/acts_as_taggable.rb:125-134 | When `:exclude` is truthy, `:match_all` is never deleted and reaches `find` with its value, so `find_tagged_with` raises. |
| Finders.FindTaggedWithDistinct | lib/acts_as_taggable.rb:92-95 | When `find_tagged_with` succeeds, it lists no taggable twice. |
| Finders.FindTaggedWith | lib/acts_as_taggable.rb:92-95 | No ensures of its own. NoTagsNoRows, RejectsUnknownKeys, AnyOfIsUnion, MatchAllIsIntersection, ExcludeIsComplement, MatchAllAndExcludeIsEmpty, ExcludeKeepsMatchAllKey and FindTaggedWithDistinct state what it returns. |
| Finders.JoinsForMatchAllTags | lib/acts_as_taggable.rb:140-158 | Its own ensures only unpack the one-join-per-tag comprehension. AllCarried, MatchAllAliasesDistinct and MatchAllIsIntersection state what the joins mean. |
| Finders.FindRelatedTags | lib/acts_as_taggable.rb:41-84 | No ensures of its own. NoSourceTagsNoRelated, RelatedRejectsUnknownKeys, RelatedBlankConditionsInvalid and RelatedTagsCoOccur state what it returns. |
| Finders.NoSourceTagsNoRelated | lib/acts_as_taggable.rb:44-45 | `find_related_tags` returns `[]` when no source tag is found. |
| Finders.RelatedRejectsUnknownKeys | lib/acts_as_taggable.rb:83 | A caller key that `Tag.counts` does not accept makes `find_related_tags` fail. |
| Finders.RelatedBlankConditionsInvalid | lib/acts_as_taggable.rb:79-83 | Once a source tag is found, a caller `:conditions` that is truthy but blank is kept and joined with `" AND "`, so the statement `Tag.counts` runs is invalid SQL (`None`). |
| Finders.RelatedTagsCoOccur | lib/acts_as_taggable.rb:62-83 | Every related tag differs from every source tag. It also has a tagging on a taggable of the model that has a tagging of some source tag. |
| Finders.FindOptionsForTagCounts | lib/acts_as_taggable.rb:167-187 | No ensures of its own. TagCountsQuery, NilConditionsDropTypeTest and TagCountsRefuseFalsyBounds state what it builds. |
| Finders.TagCounts | lib/acts_as_taggable.rb:163-165 | No ensures of its own. TagCountsRefuseFalsyBounds, TagCountsWithinBounds and TagCountsBlankConditionsInvalid state what it returns. |
| Finders.TagCountsBlankConditionsInvalid | lib/acts_as_taggable.rb:172-186 | A caller `:conditions` that is truthy but blank is kept beside the type test, and `options_for_counts` wraps the joined string in parentheses, so the class `tag_counts` runs invalid SQL (`None`). |
| Finders.TagCountsQuery | lib/acts_as_taggable.rb:167-187 | With only bounds given, the query joins the taggings and the model table. Its conditions are the taggable-type test followed by the time window, and HAVING is taken from the bounds. |
| Finders.TagCountsRefuseFalsyBounds | lib/acts_as_taggable.rb:163-187 | For every accepted options hash, the class `tag_counts` raises exactly when a bound is present with a falsy value, and the error names exactly those keys. |
| Finders.TagCountsWithinBounds | lib/acts_as_taggable.rb:163-187 | With only time, frequency, order and limit options, the class `tag_counts` succeeds exactly when no bound is falsy. It then returns `(tag, n)` exactly when the tag is in the table and n counts its in-window taggings of this type over each matching model row. In addition, n must be at least 1, at least `at_least` and at most `at_most`. |
| Finders.NilConditionsDropTypeTest | lib/acts_as_taggable.rb:172-184 | For every accepted options hash, the aggregate query has no condition, and so loses its taggable-type test, exactly when the caller passes a falsy `:conditions`. Otherwise the built conditions are kept. |
| Taggable.LinkedTags | lib/acts_as_taggable.rb:11 | The linked tags are exactly the table's tags that the record carries through a tagging. |
| Taggable.Minus | lib/acts_as_taggable.rb:241 | `Array#-` keeps exactly the elements of the first list that are not in the second. |
| Taggable.Kept | lib/acts_as_taggable.rb:246 | Destroying removes exactly the record's taggings of the given tag ids. |
| Taggable.NewTagNamesExactly | lib/acts_as_taggable.rb:241 | A name is new exactly when it is pending and no linked tag has exactly that name. |
| Taggable.DestroyedExactly | lib/acts_as_taggable.rb:242-248 | After the destroy step, a tagging remains exactly when it was there and is not one of the record's taggings of a tag whose name is missing from the list. The taggings of other taggables and of linked tags named in the list stay. |
| Taggable.LinkAllFacts | lib/acts_as_taggable.rb:250-252 | Linking keeps every tag row and every tagging. It then appends one tagging per name, in order, each on this record, stamped with the save time, and pointing to a tag that matches the name. |
| Taggable.SaveTagsFacts | lib/acts_as_taggable.rb:238-256 | `save_tags` deletes no tag row. The new tagging table is the table after the destroy step followed by exactly one tagging per new name, each pointing to a tag that matches that name. Names already linked add nothing. |
| Taggable.SaveTagsSpec | lib/acts_as_taggable.rb:238-256 | No ensures of its own. SaveTagsFacts, SaveTagsLinksExactlyList, DestroyedExactly and NewTagNamesExactly state what the fold does; TaggableRecord.SaveTags is proved against it. |
| Taggable.LinkAllIds | lib/acts_as_taggable.rb:250-252 | Linking keeps tag ids distinct and below the next id, every tag row it adds has an id no earlier row has, and it adds at most one tag row per name. |
| Taggable.SaveTagsKeepsListed | lib/acts_as_taggable.rb:241-248 | A tag linked before the save whose name is in the list is still linked afterwards. |
| Taggable.SaveTagsCarriesList | lib/acts_as_taggable.rb:241-252 | After the save, every name of the list is carried by a linked tag whose name matches it. |
| Taggable.SaveTagsLinksOnlyList | lib/acts_as_taggable.rb:241-252 | After the save, every linked tag matches some name of the list: tags named outside the list lose their taggings, and each added tagging points to a tag found or created for a list name. |
| Taggable.SaveTagsLinksExactlyList | lib/acts_as_taggable.rb:238-256 | On tables with distinct ids below the next id and no dangling tagging, after `save_tags` the record's linked tags are the list: every list name is carried by a matching linked tag (the same tag when it was already linked under exactly that name), every linked tag matches a list name, and the tag table grows by at most one row per new name. |
| Taggable.TaggableRecord.TagList | lib/acts_as_taggable.rb:218-226 | The memo is returned when set. Otherwise the cached column is loaded when caching is on and the column is not nil, and the linked tags' names are loaded in every other case. The result is stored in the memo. |
| Taggable.TaggableRecord.SetTagList | lib/acts_as_taggable.rb:228-230 | `tag_list=` replaces the memo. |
| Taggable.TaggableRecord.SaveCachedTagList | lib/acts_as_taggable.rb:232-236 | When the column exists, it receives the tag list, which is also memoised. Otherwise nothing changes. |
| Taggable.TaggableRecord.Reload | lib/acts_as_taggable.rb:273-276 | Reloading clears the memo. |
| Taggable.TaggableRecord.DestroyOldTaggings | lib/acts_as_taggable.rb:242-248 | The destroy step leaves the tag rows and the next id unchanged, sets the tagging table to `Destroyed` of the old tables, and keeps the store invariant. |
| Taggable.TaggableRecord.LinkName | lib/acts_as_taggable.rb:251 | `tags << find_or_create...` moves the tables to `Link` of the old tables: find or create the tag, then append a tagging of it on this record, stamped with the save time. The store invariant is kept. |
| Taggable.TaggableRecord.SaveTags | lib/acts_as_taggable.rb:238-256 | The result is true exactly when a list is memoised; false stands for the nil of the early return. The store invariant is kept. Nothing changes when no list is memoised. Otherwise the tables become `SaveTagsSpec` of the old tables and the list. The loop is proved against that fold. |
| Taggable.InstanceTagCounts | lib/acts_as_taggable.rb:261-271 | No ensures of its own. NoLinkedTagsNoCounts and InstanceCountsAreLinked state what it returns. |
| Taggable.NoLinkedTagsNoCounts | lib/acts_as_taggable.rb:261-262 | The instance `tag_counts` is `[]` when no tag is linked. |
| Taggable.InstanceCountsAreLinked | lib/acts_as_taggable.rb:261-271 | Every tag the instance `tag_counts` returns is a table tag with a count of at least 1, and it has the id of a tag linked to the record. |

## Left out

- SQL text, quoting and `sanitize_sql` are not modelled. The queries are abstract values with a meaning.
- The meaning of a query does not apply `:order` and `:limit`. Both are carried in the remaining options, and results come in table order.
- `find_tagged_with` also hands `find` any caller key it accepts besides those: `:offset`, `:group`, `:having`, `:from`, `:include`, `:readonly` and `:lock`. They are carried in the remaining options and ignored by `EvalFind`. `:offset`, `:limit`, `:group`, `:having` and `:from` change which rows the database returns; the other three do not. `Tag.counts`, `find_related_tags` and the class `tag_counts` accept only `:order` and `:limit` among these.
- Finders.AnyOfIsUnion, Finders.MatchAllIsIntersection and Finders.ExcludeIsComplement: "returned exactly when" describes the query without `:offset`, `:limit`, `:group`, `:having` and `:from`. With any of them given, the source returns a window, a grouping, or rows of another table, and the model's membership claim does not hold for it.
- Caller `:conditions` and `:joins` are opaque. Their meaning is a caller-supplied predicate, so a caller join acts as a row filter. A join that multiplies rows is not modelled.
- FindSpec.BaseHolds: in `find_tagged_with` the caller's `:conditions` predicate (`sql`) reads only the id of the model row. A fragment that tests a joined alias (such as `posts_tags.name = 'b'`), which the database evaluates on each joined row before DISTINCT, is not modelled. The aggregate form differs here: its `Env` reads the whole joined row.
- The caller's `:conditions` fragment is modelled as one parenthesised conjunct (`CallerConds`, `RelatedConds`, `TagCountsOptions`). The source joins it to the built tests with a bare `" AND "` (lib/acts_as_taggable.rb:105, 133, 79, 83, 172, 177), so a fragment with a top-level OR takes the built tests into its last disjunct. The model assumes the fragment binds as a single conjunct, and the source does not ensure this. The instance `tag_counts` is not affected, because `merge_conditions` adds the parentheses. A fragment that is truthy but blank (such as `" "`) is modelled as invalid SQL where it meets another conjunct: a dangling AND in any-of mode, in exclude mode and in `find_related_tags`, and `( )` in `Tag.counts` and the class `tag_counts`. In match-all mode it is the only conjunct and adds no condition.
- Finders.AnyOfIsUnion: assumes the caller's fragment binds as one conjunct (see above). A fragment with a top-level OR lets rows that pass only its first disjunct through, whatever their tags.
- Finders.ExcludeIsComplement: assumes the caller's fragment binds as one conjunct. With a top-level OR, taggables that carry the excluded tags can be returned.
- Finders.MatchAllAndExcludeIsEmpty: the empty selection assumes the caller's fragment binds as one conjunct. The call is an error in either reading.
- Finders.RelatedTagsCoOccur: assumes the caller's fragment binds as one conjunct. With a top-level OR, the source-tag test and the `NOT IN` test can be bypassed.
- Finders.TagCountsOptions: assumes the caller's fragment binds as one conjunct. With a top-level OR, the taggable-type test of the class `tag_counts` can be bypassed.
- Tags.FindFrom: a single unsaved `Tag` is returned with the id that the model's `Tag` carries. In the source it is returned as it is (lib/tag.rb:99-100) with a nil id. The id tests built from it then become `IN ()`, which is invalid SQL (lib/acts_as_taggable.rb:198, 46, 212), or `tag_id = NULL`, which matches no row (lib/acts_as_taggable.rb:154). The find and related-tag lemmas therefore describe such an argument as if the tag were saved under that id. An array argument is not affected: its unsaved tags are looked up by name.
- Comparisons with a time or frequency bound that is not an integer are treated as false.
- `GROUP BY tags.id` is modelled as one group per tag row. The store invariant keeps tag ids unique.
- The ActiveRecord machinery is left out: the callback wiring (lib/acts_as_taggable.rb:13-21), association proxies and their caching, `scope(:find)` and `type_condition` for STI (lib/acts_as_taggable.rb:169-181), `named_scope :restrict_taggable_type`, and the validations (lib/tag.rb:12-15). The transaction of `save_tags` is one atomic method.
- `find` checks the remaining option keys against the `VALID_FIND_OPTIONS` list of Rails 2.3 (`Values.FindKeys`); the plugin names no Rails version, and other versions accept other keys. Past that check, `find` is modelled only through the meaning of the query.
- LIKE wildcards and database collation are not modelled. LIKE is case-insensitive equality on ASCII letters, and `save_tags` compares names exactly, as the code does.
- `TagList` parsing, normalisation and serialisation are not part of this model. A tag list is a sequence of strings, and the cached column holds that sequence, so reading back what was written is assumed.
- Taggable.TaggableRecord.Reload: only the memo reset is modelled, because re-reading the record's attributes from the database is not part of this model.
- The instance `tag_counts` assigns the merged condition into the caller's own options hash. This aliasing side effect is not modelled.
- Canonical tags and synonyms are asserted only by tests with no implementation in the modelled files, so they are not modelled.
- `tag_cloud` is a presentation helper that uses floating point and a block, so it is not modelled.
- The find-then-create race in `find_or_create_with_like_by_name` and the unused `destroy_unused` setting are not modelled.
- Finders.RelatedTagsCoOccur: states soundness only (no source tag, and co-occurrence for each result). It does not state that every co-occurring tag is returned, or what the count is.
- Taggable.InstanceCountsAreLinked: states soundness only (each result is linked, with a positive count). It does not state the exact counts.
- Tags.CountsWithinBounds and Finders.TagCountsWithinBounds: the exact characterisation is stated only for option hashes without caller `:conditions` or `:joins`.
- The modelled code keeps neither tag lists free of duplicates nor names unique without regard to case. `validates_uniqueness_of :name` (lib/tag.rb:15) compares names case-sensitively by default. `save_tags` tests names exactly, so a pending list with two new names that differ only in case links the same found tag twice. `lib/tag_list.rb` is not part of this model. The model follows the code.
- Tags.Equals: the receiver is a saved tag (its id is a number). An unsaved receiver, whose nil id matches no saved tag, is not modelled.
- Taggable.TaggableRecord.SaveTags: every tagging of one save gets the same `created_at`, the `now` parameter. In the source each insert is stamped with its own clock reading.
- Values.Blank: only nil, false and white-space strings are blank. An empty array or hash given as `:conditions` is not a value of this model.
