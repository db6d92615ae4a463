/** The class-level query builders of a taggable model:
    `find_tagged_with`, `find_related_tags` and `tag_counts`. */
module Finders {
  import opened Schema
  import opened Values
  import opened FindSpec
  import opened CountSpec
  import opened Tags

  // ---------------------------------------------------------------------
  // Pieces

  /** The id list of the private `tags_condition(tags, alias)`; nil for no tags. */
  function TagIdsCondition(tags: seq<Tag>): (r: Option<seq<nat>>)
    ensures r.None? <==> tags == []
    ensures r.Some? ==> forall id :: id in r.value <==> exists i :: 0 <= i < |tags| && tags[i].id == id
  {
    if tags == [] then None else Some(Ids(tags))
  }

  /** `tags_condition_for_exclude`: the model row is not among the taggables of
      this type tagged with one of `tags`; nil where the inner id list is. */
  function TagsConditionForExclude(cls: ModelClass, tags: seq<Tag>): (r: Option<FindCond>)
    ensures r.None? <==> tags == []
    ensures r.Some? ==> (r.value.NotTaggedWithAny? && r.value.taggableType == cls.baseClassName &&
      forall id :: id in r.value.ids <==> exists i :: 0 <= i < |tags| && tags[i].id == id)
  {
    match TagIdsCondition(tags)
    case None => None
    case Some(ids) => Some(NotTaggedWithAny(ids, cls.baseClassName))
  }

  /** `joins_for_match_all_tags`: one tagging join per tag, aliased by its index. */
  function JoinsForMatchAllTags(cls: ModelClass, tags: seq<Tag>): (r: seq<FindJoin>)
    ensures |r| == |tags|
    ensures forall i :: 0 <= i < |tags| ==> r[i] == TaggingWithTag(Indexed("taggings", i), tags[i].id, cls.baseClassName)
  {
    seq(|tags|, i requires 0 <= i < |tags| => TaggingWithTag(Indexed("taggings", i), tags[i].id, cls.baseClassName))
  }

  /** The match-all joins bind pairwise distinct aliases. */
  lemma {:induction false} MatchAllAliasesDistinct(cls: ModelClass, tags: seq<Tag>)
    ensures Distinct(AliasesOf(JoinsForMatchAllTags(cls, tags)))
    ensures forall a :: a in AliasesOf(JoinsForMatchAllTags(cls, tags)) ==> a.Indexed? && a.index < |tags|
  {
    var js := JoinsForMatchAllTags(cls, tags);
    IndexedAliases(js, 0);
  }

  lemma {:induction false} IndexedAliases(js: seq<FindJoin>, from: nat)
    requires forall i :: 0 <= i < |js| ==> js[i].TaggingWithTag? && js[i].alias == Indexed("taggings", from + i)
    ensures |AliasesOf(js)| == |js|
    ensures forall i :: 0 <= i < |js| ==> AliasesOf(js)[i] == Indexed("taggings", from + i)
    ensures Distinct(AliasesOf(js))
    ensures forall a :: a in AliasesOf(js) ==> a.Indexed? && from <= a.index < from + |js|
    decreases |js|
  {
    if js != [] {
      IndexedAliases(js[1..], from + 1);
      assert AliasesOf(js) == [js[0].alias] + AliasesOf(js[1..]);
    }
  }

  /** The aliases of the any-of join. */
  function TaggingsAlias(cls: ModelClass): Alias { Named(cls.tableName + "_taggings") }
  function TagsAlias(cls: ModelClass): Alias { Named(cls.tableName + "_tags") }

  // ---------------------------------------------------------------------
  // find_tagged_with

  /** The caller's options when `find` receives them: `:conditions` deleted
      when truthy, `:exclude` always deleted, `:match_all` deleted only when
      `:exclude` is falsy; `:select`, `:joins` and `:conditions` then lose to
      the built ones under `reverse_merge!`. */
  function FindRest(options: Options): (rest: Options)
    ensures forall k :: k in rest <==> (k in options && k !in {"select", "joins", "conditions", "exclude"} &&
      (k == "match_all" ==> Given(options, "exclude")))
    ensures forall k :: k in rest ==> rest[k] == options[k]
  {
    map k | k in options && k !in {"select", "joins", "conditions", "exclude"} &&
      (k == "match_all" ==> Given(options, "exclude")) :: options[k]
  }

  /** `find_options_for_find_tagged_with`; None stands for the empty hash
      returned when no tag is found. */
  function FindOptionsForFindTaggedWith(db: Db, cls: ModelClass, arg: TagsArg, options: Options): (r: Option<FindQuery>)
    ensures r.None? <==> FindFrom(db.tags, arg) == []
    ensures r.Some? ==> r.value.distinct && r.value.rest == FindRest(options)
  {
    var tags := FindFrom(db.tags, arg);
    if tags == [] then None
    else
      var matchAll, exclude := Given(options, "match_all"), Given(options, "exclude");
      var joins :=
        if matchAll then JoinsForMatchAllTags(cls, tags)
        else if !exclude then [TaggingAndTag(TaggingsAlias(cls), TagsAlias(cls), cls.baseClassName)]
        else [];
      var modeConds :=
        if exclude then [TagsConditionForExclude(cls, tags).value]
        else if !matchAll then [AliasIdIn(TagsAlias(cls), Ids(tags))]
        else [];
      Some(FindQuery(true, joins, CallerConds(options) + modeConds, FindRest(options)))
  }

  /** `find_tagged_with`: no rows at all when no tag is found, otherwise what
      the built find returns (Err: `find` refuses a key; None: not valid SQL). */
  function FindTaggedWith(db: Db, model: seq<nat>, sql: (Value, nat) -> bool, cls: ModelClass, arg: TagsArg, options: Options): Result<Option<seq<nat>>>
  {
    match FindOptionsForFindTaggedWith(db, cls, arg, options)
    case None => Ok(Some([]))
    case Some(q) => Find(db, model, sql, q)
  }

  /** A caller key that survives into `find` and that `find` does not accept. */
  predicate RefusedKey(options: Options, k: string)
  {
    k in options && k !in FindKeys && k != "exclude" && (k == "match_all" ==> Given(options, "exclude"))
  }

  /** The caller's `:conditions`, when truthy, as the first conjunct. The
      fragment is read as one conjunct; the source joins it with a bare
      `AND`, so a fragment with a top-level OR would bind differently. */
  function CallerConds(options: Options): seq<FindCond>
  {
    IfGiven(options, "conditions", CallerSql(Get(options, "conditions")))
  }

  /** The caller's condition, if any, accepts the taggable. */
  predicate CallerAccepts(options: Options, sql: (Value, nat) -> bool, t: nat)
  {
    Given(options, "conditions") && !Blank(Get(options, "conditions")) ==> sql(Get(options, "conditions"), t)
  }

  /** No tag found: no rows, never an unfiltered find. */
  lemma NoTagsNoRows(db: Db, model: seq<nat>, sql: (Value, nat) -> bool, cls: ModelClass, arg: TagsArg, options: Options)
    requires FindFrom(db.tags, arg) == []
    ensures FindOptionsForFindTaggedWith(db, cls, arg, options).None?
    ensures FindTaggedWith(db, model, sql, cls, arg, options) == Ok(Some([]))
  {
  }

  /** Once a tag is found, `find_tagged_with` raises exactly when a caller key
      reaches `find` that `find` does not accept (`:exclude` never reaches it,
      `:match_all` only when `:exclude` is truthy), and names those keys. */
  lemma RejectsUnknownKeys(db: Db, model: seq<nat>, sql: (Value, nat) -> bool, cls: ModelClass, arg: TagsArg, options: Options)
    requires FindFrom(db.tags, arg) != []
    ensures FindTaggedWith(db, model, sql, cls, arg, options).Err? <==> exists k :: RefusedKey(options, k)
    ensures FindTaggedWith(db, model, sql, cls, arg, options).Err? ==>
      forall k :: k in FindTaggedWith(db, model, sql, cls, arg, options).error.keys <==> RefusedKey(options, k)
  {
    var q := FindOptionsForFindTaggedWith(db, cls, arg, options).value;
    assert FindTaggedWith(db, model, sql, cls, arg, options) == Find(db, model, sql, q);
    assert forall k :: k in q.rest.Keys - FindKeys <==> RefusedKey(options, k);
    if exists k :: RefusedKey(options, k) {
      var k :| RefusedKey(options, k);
      assert k in q.rest.Keys - FindKeys;
    }
    if !(q.rest.Keys <= FindKeys) {
      var k :| k in q.rest.Keys && k !in FindKeys;
      assert RefusedKey(options, k);
    }
  }

  /** `reverse_merge!` lets the built `:select` and `:joins` win, and the
      caller's falsy `:conditions` loses to the built conditions: changing
      any of those caller values leaves the query as it was. */
  lemma BuiltKeysWin(db: Db, cls: ModelClass, arg: TagsArg, options: Options, k: string, v: Value)
    requires k == "select" || k == "joins" || (k == "conditions" && !Truthy(v) && !Given(options, "conditions"))
    ensures FindOptionsForFindTaggedWith(db, cls, arg, options[k := v]) == FindOptionsForFindTaggedWith(db, cls, arg, options)
  {
    var o := options[k := v];
    assert Given(o, "match_all") == Given(options, "match_all") && Given(o, "exclude") == Given(options, "exclude");
    assert CallerConds(o) == CallerConds(options);
    assert FindRest(o) == FindRest(options);
  }

  /** A truthy caller `:conditions` that is blank: it is kept as a conjunct,
      and joined to another one it leaves a dangling AND. */
  predicate BlankCaller(options: Options)
  {
    Given(options, "conditions") && Blank(Get(options, "conditions"))
  }

  /** The caller's conjunct followed by one built test joins to valid SQL
      exactly when the caller's fragment is not blank. */
  lemma CallerJoinable(options: Options, c: FindCond)
    requires !c.CallerSql?
    ensures Joinable(CallerConds(options) + [c]) <==> !BlankCaller(options)
  {
    var conds := CallerConds(options) + [c];
    if BlankCaller(options) {
      assert conds[0] == CallerSql(Get(options, "conditions"));
    }
  }

  /** What `find_tagged_with` returns for a built query whose aliases are in scope. */
  lemma BuiltFind(db: Db, model: seq<nat>, sql: (Value, nat) -> bool, cls: ModelClass, arg: TagsArg, options: Options, q: FindQuery)
    requires FindOptionsForFindTaggedWith(db, cls, arg, options) == Some(q) && FindSpec.Scoped(q)
    ensures FindTaggedWith(db, model, sql, cls, arg, options).Ok? <==> FindRest(options).Keys <= FindKeys
    ensures FindTaggedWith(db, model, sql, cls, arg, options).Ok? ==>
      FindTaggedWith(db, model, sql, cls, arg, options).value ==
        if Joinable(q.conditions) then Some(Select(db, q, model, sql)) else None
  {
  }

  lemma TaggedAliasesDistinct(cls: ModelClass)
    ensures TaggingsAlias(cls) != TagsAlias(cls)
  {
    assert |cls.tableName + "_taggings"| != |cls.tableName + "_tags"|;
  }

  lemma InIds(tags: seq<Tag>, id: nat)
    ensures id in Ids(tags) <==> exists x :: x in tags && x.id == id
  {
    if id in Ids(tags) {
      var i :| 0 <= i < |Ids(tags)| && Ids(tags)[i] == id;
      assert tags[i] in tags;
    }
    if exists x :: x in tags && x.id == id {
      var x :| x in tags && x.id == id;
      var i :| 0 <= i < |tags| && tags[i] == x;
      assert Ids(tags)[i] == id;
    }
  }

  /** The caller's conjunct tests the model row and no alias. */
  lemma CallerSplit(db: Db, options: Options, extra: seq<FindCond>, sql: (Value, nat) -> bool, t: nat)
    ensures BaseHolds(db, CallerConds(options) + extra, t, sql) <==> CallerAccepts(options, sql, t) && BaseHolds(db, extra, t, sql)
    ensures forall a, id :: IdAllowed(CallerConds(options) + extra, a, id) <==> IdAllowed(extra, a, id)
  {
    var caller := CallerConds(options);
    var c := caller + extra;
    assert forall i :: 0 <= i < |extra| ==> c[|caller| + i] == extra[i];
    if Given(options, "conditions") {
      assert c[0] == CallerSql(Get(options, "conditions"));
    }
  }

  /** The find built in any-of mode. */
  lemma AnyOfQuery(db: Db, cls: ModelClass, arg: TagsArg, options: Options) returns (q: FindQuery)
    requires !Given(options, "match_all") && !Given(options, "exclude")
    requires FindFrom(db.tags, arg) != []
    ensures FindOptionsForFindTaggedWith(db, cls, arg, options) == Some(q)
    ensures q.joins == [TaggingAndTag(TaggingsAlias(cls), TagsAlias(cls), cls.baseClassName)]
    ensures q.conditions == CallerConds(options) + [AliasIdIn(TagsAlias(cls), Ids(FindFrom(db.tags, arg)))]
    ensures FindSpec.Scoped(q)
  {
    q := FindOptionsForFindTaggedWith(db, cls, arg, options).value;
    TaggedAliasesDistinct(cls);
    assert AliasesOf(q.joins) == [TaggingsAlias(cls), TagsAlias(cls)];
    assert IsTagAlias(q.joins, TagsAlias(cls)) by {
      assert q.joins[0].tagAlias == TagsAlias(cls);
    }
  }

  /** Through an existing tag row, the taggable has a tagging/tag pair
      allowed by the id test exactly when it carries one of the tags. */
  lemma AnyCarried(db: Db, T: string, t: nat, tags: seq<Tag>, conds: seq<FindCond>, xa: Alias)
    requires Integrity(db)
    requires forall id :: IdAllowed(conds, xa, id) <==> id in Ids(tags)
    ensures PairRows(db.tags, TaggingsOf(db.taggings, T, t), xa, conds) > 0 <==>
      exists x :: x in tags && Carries(db.taggings, T, t, x.id)
  {
    if exists x :: x in tags && Carries(db.taggings, T, t, x.id) {
      var x :| x in tags && Carries(db.taggings, T, t, x.id);
      CarriedPair(db, T, t, tags, conds, xa, x);
    }
    if PairRows(db.tags, TaggingsOf(db.taggings, T, t), xa, conds) > 0 {
      PairCarried(db, T, t, tags, conds, xa);
    }
  }

  lemma CarriedPair(db: Db, T: string, t: nat, tags: seq<Tag>, conds: seq<FindCond>, xa: Alias, x: Tag)
    requires Integrity(db)
    requires forall id :: IdAllowed(conds, xa, id) <==> id in Ids(tags)
    requires x in tags && Carries(db.taggings, T, t, x.id)
    ensures PairRows(db.tags, TaggingsOf(db.taggings, T, t), xa, conds) > 0
  {
    var gs := TaggingsOf(db.taggings, T, t);
    var k :| 0 <= k < |db.taggings| && Owns(db.taggings[k], T, t) && db.taggings[k].tagId == x.id;
    var g := db.taggings[k];
    assert HasTagId(db.tags, g.tagId);
    assert g in gs;
    var i :| 0 <= i < |gs| && gs[i] == g;
    InIds(tags, x.id);
    assert IdAllowed(conds, xa, gs[i].tagId);
  }

  lemma PairCarried(db: Db, T: string, t: nat, tags: seq<Tag>, conds: seq<FindCond>, xa: Alias)
    requires forall id :: IdAllowed(conds, xa, id) <==> id in Ids(tags)
    requires PairRows(db.tags, TaggingsOf(db.taggings, T, t), xa, conds) > 0
    ensures exists x :: x in tags && Carries(db.taggings, T, t, x.id)
  {
    var gs := TaggingsOf(db.taggings, T, t);
    var i :| 0 <= i < |gs| && IdAllowed(conds, xa, gs[i].tagId) && HasTagId(db.tags, gs[i].tagId);
    var g := gs[i];
    assert g in gs;
    assert g in db.taggings && Owns(g, T, t);
    var k :| 0 <= k < |db.taggings| && db.taggings[k] == g;
    InIds(tags, g.tagId);
    var x :| x in tags && x.id == g.tagId;
    assert Carries(db.taggings, T, t, x.id);
  }

  /** Any-of mode (neither flag): each taggable of the model carrying at least
      one of the found tags, and accepted by the caller's condition, once. */
  lemma AnyOfIsUnion(db: Db, model: seq<nat>, sql: (Value, nat) -> bool, cls: ModelClass, arg: TagsArg, options: Options, t: nat)
    requires Integrity(db)
    requires !Given(options, "match_all") && !Given(options, "exclude")
    requires FindFrom(db.tags, arg) != []
    ensures FindTaggedWith(db, model, sql, cls, arg, options).Ok? <==> FindRest(options).Keys <= FindKeys
    ensures FindTaggedWith(db, model, sql, cls, arg, options).Ok? ==>
      (FindTaggedWith(db, model, sql, cls, arg, options).value.Some? <==> !BlankCaller(options))
    ensures FindTaggedWith(db, model, sql, cls, arg, options).Ok? && !BlankCaller(options) ==>
      (t in FindTaggedWith(db, model, sql, cls, arg, options).value.value <==>
        t in model && CallerAccepts(options, sql, t) &&
        exists x :: x in FindFrom(db.tags, arg) && Carries(db.taggings, cls.baseClassName, t, x.id))
  {
    var q := AnyOfQuery(db, cls, arg, options);
    BuiltFind(db, model, sql, cls, arg, options, q);
    CallerJoinable(options, AliasIdIn(TagsAlias(cls), Ids(FindFrom(db.tags, arg))));
    AnyOfRows(db, sql, cls, FindFrom(db.tags, arg), options, q, t);
  }

  /** In any-of mode a taggable has selected rows exactly when the caller's
      condition accepts it and it carries one of the tags. */
  lemma AnyOfRows(db: Db, sql: (Value, nat) -> bool, cls: ModelClass, tags: seq<Tag>, options: Options, q: FindQuery, t: nat)
    requires Integrity(db)
    requires q.joins == [TaggingAndTag(TaggingsAlias(cls), TagsAlias(cls), cls.baseClassName)]
    requires q.conditions == CallerConds(options) + [AliasIdIn(TagsAlias(cls), Ids(tags))]
    ensures RowCount(db, q, t, sql) > 0 <==>
      CallerAccepts(options, sql, t) && exists x :: x in tags && Carries(db.taggings, cls.baseClassName, t, x.id)
  {
    var test := [AliasIdIn(TagsAlias(cls), Ids(tags))];
    CallerSplit(db, options, test, sql, t);
    forall id ensures IdAllowed(q.conditions, TagsAlias(cls), id) <==> id in Ids(tags) {
      assert test[0] == AliasIdIn(TagsAlias(cls), Ids(tags));
      assert IdAllowed(q.conditions, TagsAlias(cls), id) <==> IdAllowed(test, TagsAlias(cls), id);
    }
    assert BaseHolds(db, test, t, sql);
    AnyCarried(db, cls.baseClassName, t, tags, q.conditions, TagsAlias(cls));
    assert JoinProduct(db, q.joins, t, q.conditions) > 0 <==> JoinRows(db, q.joins[0], t, q.conditions) > 0;
  }

  /** One join per tag holds rows exactly when every tag is carried. */
  lemma AllCarried(db: Db, cls: ModelClass, t: nat, tags: seq<Tag>, conds: seq<FindCond>)
    ensures var js := JoinsForMatchAllTags(cls, tags);
      (forall i :: 0 <= i < |js| ==> JoinRows(db, js[i], t, conds) > 0) <==>
      forall x :: x in tags ==> Carries(db.taggings, cls.baseClassName, t, x.id)
  {
    var js := JoinsForMatchAllTags(cls, tags);
    var T := cls.baseClassName;
    var gs := TaggingsOf(db.taggings, T, t);
    forall i | 0 <= i < |tags| ensures JoinRows(db, js[i], t, conds) > 0 <==> Carries(db.taggings, T, t, tags[i].id) {
      if Carries(db.taggings, T, t, tags[i].id) {
        var k :| 0 <= k < |db.taggings| && Owns(db.taggings[k], T, t) && db.taggings[k].tagId == tags[i].id;
        assert db.taggings[k] in gs;
      }
      if JoinRows(db, js[i], t, conds) > 0 {
        var k :| 0 <= k < |gs| && gs[k].tagId == tags[i].id;
        assert gs[k] in db.taggings;
      }
    }
    forall x | x in tags && (forall i :: 0 <= i < |js| ==> JoinRows(db, js[i], t, conds) > 0)
      ensures Carries(db.taggings, T, t, x.id) {
      var i :| 0 <= i < |tags| && tags[i] == x;
    }
  }

  /** Match-all mode: the taggables of the model carrying every found tag
      (and accepted by the caller's condition), with one join per tag. */
  lemma MatchAllIsIntersection(db: Db, model: seq<nat>, sql: (Value, nat) -> bool, cls: ModelClass, arg: TagsArg, options: Options, t: nat)
    requires Given(options, "match_all") && !Given(options, "exclude")
    requires FindFrom(db.tags, arg) != []
    ensures FindOptionsForFindTaggedWith(db, cls, arg, options).value.joins == JoinsForMatchAllTags(cls, FindFrom(db.tags, arg))
    ensures FindTaggedWith(db, model, sql, cls, arg, options).Ok? <==> FindRest(options).Keys <= FindKeys
    ensures FindTaggedWith(db, model, sql, cls, arg, options).Ok? ==>
      FindTaggedWith(db, model, sql, cls, arg, options).value.Some? &&
      (t in FindTaggedWith(db, model, sql, cls, arg, options).value.value <==>
        t in model && CallerAccepts(options, sql, t) &&
        forall x :: x in FindFrom(db.tags, arg) ==> Carries(db.taggings, cls.baseClassName, t, x.id))
  {
    var tags := FindFrom(db.tags, arg);
    var q := FindOptionsForFindTaggedWith(db, cls, arg, options).value;
    assert q.conditions == CallerConds(options) + [];
    MatchAllAliasesDistinct(cls, tags);
    assert FindSpec.Scoped(q) && Joinable(q.conditions);
    BuiltFind(db, model, sql, cls, arg, options, q);
    CallerSplit(db, options, [], sql, t);
    AllCarried(db, cls, t, tags, q.conditions);
  }

  /** The find built in exclude mode without `match_all`. */
  lemma ExcludeQuery(db: Db, cls: ModelClass, arg: TagsArg, options: Options) returns (q: FindQuery, ex: FindCond)
    requires Given(options, "exclude") && !Given(options, "match_all")
    requires FindFrom(db.tags, arg) != []
    ensures FindOptionsForFindTaggedWith(db, cls, arg, options) == Some(q)
    ensures TagsConditionForExclude(cls, FindFrom(db.tags, arg)) == Some(ex)
    ensures q.joins == [] && q.conditions == CallerConds(options) + [ex]
    ensures FindSpec.Scoped(q)
  {
    q := FindOptionsForFindTaggedWith(db, cls, arg, options).value;
    ex := TagsConditionForExclude(cls, FindFrom(db.tags, arg)).value;
  }

  /** Exclude mode (without a truthy `match_all`): the taggables of the model
      that carry none of the found tags (and that the caller's condition
      accepts); no join is added. A falsy `:match_all` key is a key `find`
      refuses, so the result is then an error. */
  lemma ExcludeIsComplement(db: Db, model: seq<nat>, sql: (Value, nat) -> bool, cls: ModelClass, arg: TagsArg, options: Options, t: nat)
    requires Integrity(db)
    requires Given(options, "exclude") && !Given(options, "match_all")
    requires FindFrom(db.tags, arg) != []
    ensures FindOptionsForFindTaggedWith(db, cls, arg, options).value.joins == []
    ensures FindTaggedWith(db, model, sql, cls, arg, options).Ok? <==> FindRest(options).Keys <= FindKeys
    ensures "match_all" in options ==> FindTaggedWith(db, model, sql, cls, arg, options).Err?
    ensures FindTaggedWith(db, model, sql, cls, arg, options).Ok? ==>
      (FindTaggedWith(db, model, sql, cls, arg, options).value.Some? <==> !BlankCaller(options))
    ensures FindTaggedWith(db, model, sql, cls, arg, options).Ok? && !BlankCaller(options) ==>
      (t in FindTaggedWith(db, model, sql, cls, arg, options).value.value <==>
        t in model && CallerAccepts(options, sql, t) &&
        forall x :: x in FindFrom(db.tags, arg) ==> !Carries(db.taggings, cls.baseClassName, t, x.id))
  {
    var q, ex := ExcludeQuery(db, cls, arg, options);
    BuiltFind(db, model, sql, cls, arg, options, q);
    CallerJoinable(options, ex);
    assert "match_all" in options ==> "match_all" in q.rest;
    ExcludeRows(db, sql, cls, FindFrom(db.tags, arg), options, q, ex, t);
  }

  /** In exclude mode a taggable has a selected row exactly when the caller's
      condition accepts it and it carries none of the tags. */
  lemma ExcludeRows(db: Db, sql: (Value, nat) -> bool, cls: ModelClass, tags: seq<Tag>, options: Options, q: FindQuery, ex: FindCond, t: nat)
    requires Integrity(db)
    requires TagsConditionForExclude(cls, tags) == Some(ex)
    requires q.joins == [] && q.conditions == CallerConds(options) + [ex]
    ensures RowCount(db, q, t, sql) > 0 <==>
      CallerAccepts(options, sql, t) && forall x :: x in tags ==> !Carries(db.taggings, cls.baseClassName, t, x.id)
  {
    CallerSplit(db, options, [ex], sql, t);
    assert BaseHolds(db, [ex], t, sql) <==> !TaggedWithAny(db, cls.baseClassName, t, ex.ids) by {
      assert [ex][0] == ex;
    }
    ExcludeMeans(db, cls.baseClassName, t, tags, ex.ids);
  }

  lemma ExcludeMeans(db: Db, T: string, t: nat, tags: seq<Tag>, ids: seq<nat>)
    requires Integrity(db)
    requires forall id :: id in ids <==> exists i :: 0 <= i < |tags| && tags[i].id == id
    ensures TaggedWithAny(db, T, t, ids) <==> exists x :: x in tags && Carries(db.taggings, T, t, x.id)
  {
    if TaggedWithAny(db, T, t, ids) {
      var k :| 0 <= k < |db.taggings| && Owns(db.taggings[k], T, t) && db.taggings[k].tagId in ids && HasTagId(db.tags, db.taggings[k].tagId);
      var i :| 0 <= i < |tags| && tags[i].id == db.taggings[k].tagId;
      assert tags[i] in tags && Carries(db.taggings, T, t, tags[i].id);
    }
    if exists x :: x in tags && Carries(db.taggings, T, t, x.id) {
      var x :| x in tags && Carries(db.taggings, T, t, x.id);
      var k :| 0 <= k < |db.taggings| && Owns(db.taggings[k], T, t) && db.taggings[k].tagId == x.id;
      var i :| 0 <= i < |tags| && tags[i] == x;
      assert db.taggings[k].tagId in ids;
    }
  }

  /** Both flags: the joins come from match-all and the condition from
      exclude, so the built query selects no taggable; and since `:match_all`
      survives into `find`, `find` refuses it and raises. */
  lemma MatchAllAndExcludeIsEmpty(db: Db, model: seq<nat>, sql: (Value, nat) -> bool, cls: ModelClass, arg: TagsArg, options: Options)
    requires Integrity(db)
    requires Given(options, "exclude") && Given(options, "match_all")
    requires FindFrom(db.tags, arg) != []
    ensures FindOptionsForFindTaggedWith(db, cls, arg, options).value.joins == JoinsForMatchAllTags(cls, FindFrom(db.tags, arg))
    ensures FindOptionsForFindTaggedWith(db, cls, arg, options).value.conditions ==
      CallerConds(options) + [TagsConditionForExclude(cls, FindFrom(db.tags, arg)).value]
    ensures FindSpec.EvalFind(db, model, sql, FindOptionsForFindTaggedWith(db, cls, arg, options).value) ==
      if BlankCaller(options) then None else Some([])
    ensures FindTaggedWith(db, model, sql, cls, arg, options).Err?
    ensures "match_all" in FindTaggedWith(db, model, sql, cls, arg, options).error.keys
  {
    var q := FindOptionsForFindTaggedWith(db, cls, arg, options).value;
    BothFlagsSelectNothing(db, model, sql, cls, FindFrom(db.tags, arg), options, q);
    assert "match_all" in q.rest.Keys - FindKeys;
  }

  /** The query built with both flags has no row for any taggable. */
  lemma BothFlagsSelectNothing(db: Db, model: seq<nat>, sql: (Value, nat) -> bool, cls: ModelClass, tags: seq<Tag>, options: Options, q: FindQuery)
    requires Integrity(db)
    requires tags != []
    requires q.joins == JoinsForMatchAllTags(cls, tags)
    requires q.conditions == CallerConds(options) + [TagsConditionForExclude(cls, tags).value]
    ensures EvalFind(db, model, sql, q) == if BlankCaller(options) then None else Some([])
  {
    var T := cls.baseClassName;
    var ex := TagsConditionForExclude(cls, tags).value;
    CallerJoinable(options, ex);
    MatchAllAliasesDistinct(cls, tags);
    assert FindSpec.Scoped(q);
    forall t ensures RowCount(db, q, t, sql) == 0 {
      CallerSplit(db, options, [ex], sql, t);
      AllCarried(db, cls, t, tags, q.conditions);
      ExcludeMeans(db, T, t, tags, ex.ids);
      assert BaseHolds(db, [ex], t, sql) ==> !TaggedWithAny(db, T, t, ex.ids) by {
        assert [ex][0] == ex;
      }
      assert tags[0] in tags;
      if BaseHolds(db, q.conditions, t, sql) && JoinProduct(db, q.joins, t, q.conditions) > 0 {
        assert false;
      }
    }
    EmptySelect(db, q, model, sql);
  }

  lemma {:induction false} EmptySelect(db: Db, q: FindQuery, model: seq<nat>, sql: (Value, nat) -> bool)
    requires forall t :: RowCount(db, q, t, sql) == 0
    ensures Select(db, q, model, sql) == []
  {
    if model != [] {
      EmptySelect(db, q, model[1..], sql);
    }
  }

  /** When `:exclude` is truthy the `:match_all` key is never deleted, so it
      reaches `find` with the other remaining options. */
  lemma ExcludeKeepsMatchAllKey(db: Db, model: seq<nat>, sql: (Value, nat) -> bool, cls: ModelClass, arg: TagsArg, options: Options)
    requires Given(options, "exclude") && "match_all" in options
    requires FindFrom(db.tags, arg) != []
    ensures var q := FindOptionsForFindTaggedWith(db, cls, arg, options).value;
      "match_all" in q.rest && q.rest["match_all"] == options["match_all"]
    ensures FindTaggedWith(db, model, sql, cls, arg, options).Err?
  {
    assert RefusedKey(options, "match_all");
    RejectsUnknownKeys(db, model, sql, cls, arg, options);
  }

  /** The result of `find_tagged_with` lists no taggable twice. */
  lemma FindTaggedWithDistinct(db: Db, model: seq<nat>, sql: (Value, nat) -> bool, cls: ModelClass, arg: TagsArg, options: Options)
    requires Distinct(model)
    requires FindTaggedWith(db, model, sql, cls, arg, options).Ok?
    requires FindTaggedWith(db, model, sql, cls, arg, options).value.Some?
    ensures Distinct(FindTaggedWith(db, model, sql, cls, arg, options).value.value)
  {
    match FindOptionsForFindTaggedWith(db, cls, arg, options)
    case None =>
    case Some(q) => SelectDistinct(db, q, model, sql);
  }

  // ---------------------------------------------------------------------
  // find_related_tags

  /** The joins `find_related_tags` builds: the caller's, then from each
      tagging to its taggable of this type, to that taggable's taggings and
      their tags (the source tags). */
  function RelatedJoins(cls: ModelClass, options: Options): seq<CountJoin>
  {
    (if Given(options, "joins") then ToJoins(Get(options, "joins")) else [])
    + [TaggableRows(Some(cls.baseClassName)), SourceTaggings(cls.baseClassName), SourceTags]
  }

  /** The conditions `find_related_tags` builds: the caller's, the source tag
      is one of `tags`, and the counted tag is none of them. */
  function RelatedConds(tags: seq<Tag>, options: Options): seq<RowCond>
  {
    IfGiven(options, "conditions", ToCond(Get(options, "conditions")))
    + [SourceTagIdIn(Ids(tags)), TagIdNotIn(Ids(tags))]
  }

  /** The options handed to `Tag.counts`. */
  function RelatedOptions(cls: ModelClass, tags: seq<Tag>, options: Options): Options
  {
    options["joins" := VJoins(RelatedJoins(cls, options))]["conditions" := VCond(All(RelatedConds(tags, options)))]
  }

  /** `find_related_tags`. */
  function FindRelatedTags(db: Db, model: seq<nat>, env: Env, cls: ModelClass, arg: TagsArg, options: Options): Result<Option<seq<TagRecord>>>
  {
    var tags := FindFrom(db.tags, arg);
    if tags == [] then Ok(Some([]))
    else Counts(db, model, env, RelatedOptions(cls, tags, options))
  }

  /** No source tag: no related tags. */
  lemma NoSourceTagsNoRelated(db: Db, model: seq<nat>, env: Env, cls: ModelClass, arg: TagsArg, options: Options)
    requires FindFrom(db.tags, arg) == []
    ensures FindRelatedTags(db, model, env, cls, arg, options) == Ok(Some([]))
  {
  }

  /** An unknown key in the caller's options is rejected. */
  lemma RelatedRejectsUnknownKeys(db: Db, model: seq<nat>, env: Env, cls: ModelClass, arg: TagsArg, options: Options, k: string)
    requires FindFrom(db.tags, arg) != []
    requires k in options && k !in CountKeys
    ensures FindRelatedTags(db, model, env, cls, arg, options).Err?
  {
    var merged := RelatedOptions(cls, FindFrom(db.tags, arg), options);
    assert k in merged;
  }

  /** A blank but truthy caller `:conditions` is kept, and joined with
      `" AND "` it leaves a dangling AND: the statement is an SQL error. */
  lemma RelatedBlankConditionsInvalid(db: Db, model: seq<nat>, env: Env, cls: ModelClass, arg: TagsArg, options: Options)
    requires FindFrom(db.tags, arg) != []
    requires BlankCaller(options)
    requires FindRelatedTags(db, model, env, cls, arg, options).Ok?
    ensures FindRelatedTags(db, model, env, cls, arg, options).value.None?
  {
    var merged := RelatedOptions(cls, FindFrom(db.tags, arg), options);
    var rc := RelatedConds(FindFrom(db.tags, arg), options);
    assert Get(merged, "conditions") == VCond(All(rc));
    assert rc[0] == Sql(Get(options, "conditions"));
    ConditionOutOfScope(db, model, env, merged);
  }

  /** The aggregate query behind `find_related_tags`. */
  lemma RelatedQuery(cls: ModelClass, tags: seq<Tag>, options: Options) returns (q: CountsQuery)
    requires OptionsForCounts(RelatedOptions(cls, tags, options)).Ok?
    ensures OptionsForCounts(RelatedOptions(cls, tags, options)) == Ok(q)
    ensures q.joins == [TaggingsOfTag] + RelatedJoins(cls, options)
    ensures q.conditions.Some? && |q.conditions.value| > 0 && q.conditions.value[0] == All(RelatedConds(tags, options))
  {
    var merged := RelatedOptions(cls, tags, options);
    q := OptionsForCounts(merged).value;
    assert Get(merged, "joins") == VJoins(RelatedJoins(cls, options));
    assert Get(merged, "conditions") == VCond(All(RelatedConds(tags, options)));
    assert "joins" !in Residual(merged) && "conditions" !in Residual(merged);
    assert CountConditions(merged)[0] == All(RelatedConds(tags, options));
  }

  /** A counted tag has a row in its group, which satisfies the conditions
      and the ON clause of every join. */
  lemma GroupWitness(db: Db, model: seq<nat>, env: Env, q: CountsQuery, x: Tag) returns (r: Row)
    requires q.conditions.Some? && |GroupRows(db, model, env, q, x)| > 0
    ensures r.tag == x && HoldsAll(q.conditions.value, r, env)
    ensures forall j :: j in q.joins ==> Satisfies(db, model, j, r)
  {
    r := GroupRows(db, model, env, q, x)[0];
    assert r in GroupRows(db, model, env, q, x);
    JoinAllKeeps(db, model, env, q.joins, x, [Start(x)], r);
  }

  /** A row of a related tag's group: the tag's tagging, its taggable of the
      model's type, a tagging of that taggable and its tag, which is a source tag. */
  lemma RelatedRow(db: Db, model: seq<nat>, env: Env, cls: ModelClass, tags: seq<Tag>, options: Options, q: CountsQuery, x: Tag) returns (r: Row)
    requires q.joins == [TaggingsOfTag] + RelatedJoins(cls, options)
    requires q.conditions.Some? && |q.conditions.value| > 0 && q.conditions.value[0] == All(RelatedConds(tags, options))
    requires |GroupRows(db, model, env, q, x)| > 0
    ensures r.tag == x && x.id !in Ids(tags)
    ensures r.tagging.Some? && r.taggable.Some? && r.source.Some? && r.sourceTag.Some?
    ensures r.tagging.value in db.taggings && r.tagging.value.tagId == x.id
    ensures Owns(r.tagging.value, cls.baseClassName, r.taggable.value) && r.taggable.value in model
    ensures r.source.value in db.taggings && Owns(r.source.value, cls.baseClassName, r.taggable.value)
    ensures r.sourceTag.value.id == r.source.value.tagId && r.sourceTag.value.id in Ids(tags)
  {
    var T := cls.baseClassName;
    r := GroupWitness(db, model, env, q, x);
    var conds := RelatedConds(tags, options);
    assert Holds(All(conds), r, env);
    assert Holds(conds[|conds| - 1], r, env) && Holds(conds[|conds| - 2], r, env);
    var n := |q.joins|;
    assert q.joins[0] == TaggingsOfTag && q.joins[n - 3] == TaggableRows(Some(T)) &&
      q.joins[n - 2] == SourceTaggings(T) && q.joins[n - 1] == SourceTags;
    assert Satisfies(db, model, q.joins[0], r) && Satisfies(db, model, q.joins[n - 3], r) &&
      Satisfies(db, model, q.joins[n - 2], r) && Satisfies(db, model, q.joins[n - 1], r);
  }

  /** Every related tag differs from every source tag and shares a taggable of
      the model with one of them. */
  lemma RelatedTagsCoOccur(db: Db, model: seq<nat>, env: Env, cls: ModelClass, arg: TagsArg, options: Options, recs: seq<TagRecord>, rec: TagRecord)
    requires FindRelatedTags(db, model, env, cls, arg, options) == Ok(Some(recs))
    requires rec in recs
    ensures forall s :: s in FindFrom(db.tags, arg) ==> rec.tag.id != s.id
    ensures exists g, c, sg :: (g in db.taggings && sg in db.taggings && c in model &&
      g.tagId == rec.tag.id && Owns(g, cls.baseClassName, c) && Owns(sg, cls.baseClassName, c) &&
      exists s :: s in FindFrom(db.tags, arg) && s.id == sg.tagId)
  {
    var tags := FindFrom(db.tags, arg);
    var q := RelatedQuery(cls, tags, options);
    CountsRespectHaving(db, model, env, q, rec);
    var r := RelatedRow(db, model, env, cls, tags, options, q, rec.tag);
    var g, c, sg := r.tagging.value, r.taggable.value, r.source.value;
    InIds(tags, sg.tagId);
    forall s | s in tags ensures rec.tag.id != s.id {
      InIds(tags, s.id);
    }
    assert g in db.taggings && sg in db.taggings && c in model && g.tagId == rec.tag.id;
  }

  // ---------------------------------------------------------------------
  // tag_counts

  /** `find_options_for_tag_counts`: the caller's condition and the taggable
      type test, the join to the model table then the caller's joins, with the
      caller's remaining options merged over them, handed to `options_for_counts`. */
  function FindOptionsForTagCounts(cls: ModelClass, options: Options): Result<CountsQuery>
  {
    OptionsForCounts(TagCountsOptions(cls, options))
  }

  /** The hash `find_options_for_tag_counts` hands to `options_for_counts`. */
  function TagCountsOptions(cls: ModelClass, options: Options): Options
  {
    var conds := IfGiven(options, "conditions", ToCond(Get(options, "conditions"))) + [TypeIs(cls.baseClassName)];
    var joins := [TaggableRows(None)] + (if Given(options, "joins") then ToJoins(Get(options, "joins")) else []);
    var left := map k | k in options && !(k in {"conditions", "joins"} && Given(options, k)) :: options[k];
    map["conditions" := VCond(All(conds)), "joins" := VJoins(joins)] + left
  }

  /** The class method `tag_counts`. */
  function TagCounts(db: Db, model: seq<nat>, env: Env, cls: ModelClass, options: Options): Result<Option<seq<TagRecord>>>
  {
    match FindOptionsForTagCounts(cls, options)
    case Err(e) => Err(e)
    case Ok(q) => FindCounts(db, model, env, q)
  }

  /** Row conditions that read only the tag and the tagging of a row. */
  predicate TaggingLevel(c: RowCond)
  {
    match c
    case All(parts) => forall i :: 0 <= i < |parts| ==> TaggingLevel(parts[i])
    case TypeIs(_) => true
    case CreatedFrom(_) => true
    case CreatedUntil(_) => true
    case TagIdIn(_) => true
    case TagIdNotIn(_) => true
    case _ => false
  }

  lemma {:induction false} TaggingLevelHolds(c: RowCond, r: Row, r': Row, env: Env)
    requires TaggingLevel(c) && r.tag == r'.tag && r.tagging == r'.tagging
    ensures Holds(c, r, env) <==> Holds(c, r', env)
  {
    match c
    case All(parts) =>
      forall i | 0 <= i < |parts| ensures Holds(parts[i], r, env) <==> Holds(parts[i], r', env) {
        TaggingLevelHolds(parts[i], r, r', env);
      }
    case _ =>
  }

  /** For each tagging of the tag, of this type and within the window, the
      number of model rows with its taggable id. */
  function TypedInWindow(taggings: seq<Tagging>, model: seq<nat>, T: string, id: nat, from: Option<int>, until: Option<int>): nat
  {
    if taggings == [] then 0
    else
      var g := taggings[0];
      (if g.tagId == id && g.taggableType == T && InWindow(g, from, until) then Occurrences(model, g.taggableId) else 0)
      + TypedInWindow(taggings[1..], model, T, id, from, until)
  }

  lemma ExtendAllCons(db: Db, model: seq<nat>, env: Env, j: CountJoin, r: Row, b: seq<Row>)
    ensures ExtendAll(db, model, env, j, [r] + b) == Extend(db, model, env, j, r) + ExtendAll(db, model, env, j, b)
  {
    assert ([r] + b)[0] == r && ([r] + b)[1..] == b;
  }

  lemma {:induction false} TaggableCount(r: Row, g: Tagging, model: seq<nat>)
    ensures |WithTaggable(r, g, model, None)| == Occurrences(model, g.taggableId)
  {
    if model != [] {
      TaggableCount(r, g, model[1..]);
    }
  }

  /** A filter that treats every row alike keeps all or none. */
  lemma {:induction false} FilterUniform(conds: seq<RowCond>, rs: seq<Row>, env: Env, b: bool)
    requires forall r :: r in rs ==> HoldsAll(conds, r, env) == b
    ensures |Filter(conds, rs, env)| == if b then |rs| else 0
  {
    if rs != [] {
      assert rs[0] in rs;
      FilterUniform(conds, rs[1..], env, b);
    }
  }

  /** The premise of `TypedRows`: the conditions read only the tagging, and
      accept a tagging of the tag exactly when it is of type `T` and in the window. */
  ghost predicate TypedWindow(env: Env, conds: seq<RowCond>, x: Tag, T: string, from: Option<int>, until: Option<int>)
  {
    (forall i :: 0 <= i < |conds| ==> TaggingLevel(conds[i])) &&
    forall g: Tagging :: g.tagId == x.id ==>
      (HoldsAll(conds, Start(x).(tagging := Some(g)), env) <==> g.taggableType == T && InWindow(g, from, until))
  }

  /** One tagging of the tag contributes a row per model row with its taggable id, or none. */
  lemma HeadRows(db: Db, model: seq<nat>, env: Env, conds: seq<RowCond>, x: Tag, g: Tagging, T: string, from: Option<int>, until: Option<int>)
    requires TypedWindow(env, conds, x, T, from, until) && g.tagId == x.id
    ensures |Filter(conds, ExtendAll(db, model, env, TaggableRows(None), [Start(x).(tagging := Some(g))]), env)| ==
      if g.taggableType == T && InWindow(g, from, until) then Occurrences(model, g.taggableId) else 0
  {
    var r1 := Start(x).(tagging := Some(g));
    var ext := WithTaggable(r1, g, model, None);
    calc {
      ExtendAll(db, model, env, TaggableRows(None), [r1]);
      { assert [r1][1..] == []; }
      Extend(db, model, env, TaggableRows(None), r1) + ExtendAll(db, model, env, TaggableRows(None), []);
      ext;
    }
    var b := HoldsAll(conds, r1, env);
    forall r | r in ext ensures HoldsAll(conds, r, env) == b {
      forall i | 0 <= i < |conds| ensures Holds(conds[i], r, env) == Holds(conds[i], r1, env) {
        TaggingLevelHolds(conds[i], r, r1, env);
      }
    }
    FilterUniform(conds, ext, env, b);
    TaggableCount(r1, g, model);
  }

  /** Each tagging of the group contributes one row per matching model row. */
  lemma {:induction false} TypedRows(db: Db, model: seq<nat>, env: Env, conds: seq<RowCond>, x: Tag, taggings: seq<Tagging>, T: string, from: Option<int>, until: Option<int>)
    requires TypedWindow(env, conds, x, T, from, until)
    ensures |Filter(conds, ExtendAll(db, model, env, TaggableRows(None), WithTaggings(Start(x), taggings)), env)| ==
      TypedInWindow(taggings, model, T, x.id, from, until)
  {
    if taggings != [] {
      RowsSplit(db, model, env, conds, x, taggings);
      HeadCount(db, model, env, conds, x, taggings[0], T, from, until);
      TypedRows(db, model, env, conds, x, taggings[1..], T, from, until);
    }
  }

  /** The first tagging's rows, then the rest's. */
  lemma RowsSplit(db: Db, model: seq<nat>, env: Env, conds: seq<RowCond>, x: Tag, taggings: seq<Tagging>)
    requires taggings != []
    ensures var g := taggings[0];
      var head := if g.tagId == x.id then [Start(x).(tagging := Some(g))] else [];
      |Filter(conds, ExtendAll(db, model, env, TaggableRows(None), WithTaggings(Start(x), taggings)), env)| ==
      |Filter(conds, ExtendAll(db, model, env, TaggableRows(None), head), env)| +
      |Filter(conds, ExtendAll(db, model, env, TaggableRows(None), WithTaggings(Start(x), taggings[1..])), env)|
  {
    var g := taggings[0];
    var head := if g.tagId == x.id then [Start(x).(tagging := Some(g))] else [];
    var tail := WithTaggings(Start(x), taggings[1..]);
    assert WithTaggings(Start(x), taggings) == head + tail;
    var eh := ExtendAll(db, model, env, TaggableRows(None), head);
    var et := ExtendAll(db, model, env, TaggableRows(None), tail);
    if g.tagId == x.id {
      ConsSplit(db, model, env, TaggableRows(None), Start(x).(tagging := Some(g)), tail);
    } else {
      assert head + tail == tail;
    }
    assert ExtendAll(db, model, env, TaggableRows(None), WithTaggings(Start(x), taggings)) == eh + et;
    FilterConcat(conds, eh, et, env);
    assert |Filter(conds, eh, env) + Filter(conds, et, env)| == |Filter(conds, eh, env)| + |Filter(conds, et, env)|;
  }

  /** Extending one row, then more rows. */
  lemma ConsSplit(db: Db, model: seq<nat>, env: Env, j: CountJoin, r: Row, tail: seq<Row>)
    ensures ExtendAll(db, model, env, j, [r] + tail) == ExtendAll(db, model, env, j, [r]) + ExtendAll(db, model, env, j, tail)
  {
    var e := Extend(db, model, env, j, r);
    ExtendAllCons(db, model, env, j, r, tail);
    assert [r][0] == r && [r][1..] == [];
    assert ExtendAll(db, model, env, j, [r]) == e + ExtendAll(db, model, env, j, []);
    assert e + [] == e;
  }

  /** What the first tagging contributes. */
  lemma HeadCount(db: Db, model: seq<nat>, env: Env, conds: seq<RowCond>, x: Tag, g: Tagging, T: string, from: Option<int>, until: Option<int>)
    requires TypedWindow(env, conds, x, T, from, until)
    ensures var head := if g.tagId == x.id then [Start(x).(tagging := Some(g))] else [];
      |Filter(conds, ExtendAll(db, model, env, TaggableRows(None), head), env)| ==
      if g.tagId == x.id && g.taggableType == T && InWindow(g, from, until) then Occurrences(model, g.taggableId) else 0
  {
    if g.tagId == x.id {
      HeadRows(db, model, env, conds, x, g, T, from, until);
    }
  }

  /** The class `tag_counts` raises exactly when a bound is given with a
      falsy value (the merge keeps the caller's bounds as given). */
  lemma TagCountsRefuseFalsyBounds(db: Db, model: seq<nat>, env: Env, cls: ModelClass, options: Options)
    requires FindOptionsForTagCounts(cls, options).Ok?
    ensures TagCounts(db, model, env, cls, options).Err? <==> exists k :: FalsyBound(options, k)
    ensures TagCounts(db, model, env, cls, options).Err? ==>
      forall k :: k in TagCounts(db, model, env, cls, options).error.keys <==> FalsyBound(options, k)
  {
    var merged := TagCountsOptions(cls, options);
    var q := FindOptionsForTagCounts(cls, options).value;
    assert forall k :: FalsyBound(merged, k) <==> FalsyBound(options, k) by {
      forall k | k in {"start_at", "end_at", "at_least", "at_most"}
        ensures (k in merged <==> k in options) && (k in options ==> merged[k] == options[k])
      {
      }
    }
    assert TagCounts(db, model, env, cls, options) == FindCounts(db, model, env, q);
    RefusedAreFalsyBounds(merged);
    if exists k :: FalsyBound(options, k) {
      var k :| FalsyBound(options, k);
      assert k in q.rest.Keys - FindKeys;
    }
    if !(q.rest.Keys <= FindKeys) {
      var k :| k in q.rest.Keys && k !in FindKeys;
      assert FalsyBound(merged, k);
    }
  }

  /** A blank but truthy caller `:conditions` is kept beside the type test,
      and `options_for_counts` wraps it as `( )`: the statement is an SQL error. */
  lemma TagCountsBlankConditionsInvalid(db: Db, model: seq<nat>, env: Env, cls: ModelClass, options: Options)
    requires BlankCaller(options)
    requires TagCounts(db, model, env, cls, options).Ok?
    ensures TagCounts(db, model, env, cls, options).value.None?
  {
    var merged := TagCountsOptions(cls, options);
    var conds := IfGiven(options, "conditions", ToCond(Get(options, "conditions"))) + [TypeIs(cls.baseClassName)];
    assert Get(merged, "conditions") == VCond(All(conds));
    assert conds[0] == Sql(Get(options, "conditions"));
    assert TagCounts(db, model, env, cls, options) == Counts(db, model, env, merged);
    ConditionOutOfScope(db, model, env, merged);
  }

  /** With only `start_at`, `end_at`, `at_least` and `at_most` (and `order`,
      `limit`) given, the class `tag_counts` raises when a bound is falsy, and
      otherwise counts, for each tag, its taggings on taggables of this model
      within the inclusive window (one per matching model row) and keeps the
      tags whose count meets the bounds. */
  lemma TagCountsWithinBounds(db: Db, model: seq<nat>, env: Env, cls: ModelClass, options: Options, x: Tag, n: int)
    requires IntBounds(options)
    ensures TagCounts(db, model, env, cls, options).Ok? <==> forall k :: !FalsyBound(options, k)
    ensures TagCounts(db, model, env, cls, options).Ok? ==>
      TagCounts(db, model, env, cls, options).value.Some? &&
      (TagRecord(x, Some(n)) in TagCounts(db, model, env, cls, options).value.value <==>
        x in db.tags &&
        n == TypedInWindow(db.taggings, model, cls.baseClassName, x.id, IntBound(options, "start_at"), IntBound(options, "end_at")) &&
        WithinFrequency(n, IntBound(options, "at_least"), IntBound(options, "at_most")))
  {
    var q := TagCountsQuery(cls, options);
    TagCountsRefuseFalsyBounds(db, model, env, cls, options);
    if TagCounts(db, model, env, cls, options).Ok? {
      assert TagCounts(db, model, env, cls, options) == Ok(EvalCounts(db, model, env, q));
      TagCountsGroups(db, model, env, cls, options, q, x, n);
    }
  }

  /** The groups of the query `tag_counts` builds when only bounds are given. */
  lemma TagCountsGroups(db: Db, model: seq<nat>, env: Env, cls: ModelClass, options: Options, q: CountsQuery, x: Tag, n: int)
    requires IntBounds(options)
    requires q.joins == [TaggingsOfTag, TaggableRows(None)]
    requires q.conditions == Some([All([TypeIs(cls.baseClassName)])] + WindowConds(options))
    requires q.having == CountHaving(options)
    requires CountSpec.Scoped(q)
    ensures TagRecord(x, Some(n)) in Groups(db, model, env, q, db.tags) <==>
      x in db.tags &&
      n == TypedInWindow(db.taggings, model, cls.baseClassName, x.id, IntBound(options, "start_at"), IntBound(options, "end_at")) &&
      WithinFrequency(n, IntBound(options, "at_least"), IntBound(options, "at_most"))
  {
    GroupsExactly(db, model, env, q, db.tags, x, n);
    TagCountsGroup(db, model, env, cls, options, q, x);
    if n >= 0 {
      HavingMeans(options, q.having, n);
    }
  }

  /** With only bounds given, the hash adds the type test and the model join. */
  lemma BoundsTagCountsOptions(cls: ModelClass, options: Options)
    requires IntBounds(options)
    ensures TagCountsOptions(cls, options) ==
      options["conditions" := VCond(All([TypeIs(cls.baseClassName)]))]["joins" := VJoins([TaggableRows(None)])]
  {
    var left := map k | k in options && !(k in {"conditions", "joins"} && Given(options, k)) :: options[k];
    assert left == options;
    assert IfGiven(options, "conditions", ToCond(Get(options, "conditions"))) + [TypeIs(cls.baseClassName)] == [TypeIs(cls.baseClassName)];
    assert [TaggableRows(None)] + (if Given(options, "joins") then ToJoins(Get(options, "joins")) else []) == [TaggableRows(None)];
  }

  /** The query `tag_counts` builds when only bounds are given. */
  lemma TagCountsQuery(cls: ModelClass, options: Options) returns (q: CountsQuery)
    requires IntBounds(options)
    ensures FindOptionsForTagCounts(cls, options) == Ok(q)
    ensures q.joins == [TaggingsOfTag, TaggableRows(None)]
    ensures q.conditions == Some([All([TypeIs(cls.baseClassName)])] + WindowConds(options))
    ensures q.having == CountHaving(options)
    ensures CountSpec.Scoped(q)
  {
    var T := cls.baseClassName;
    var merged := TagCountsOptions(cls, options);
    BoundsTagCountsOptions(cls, options);
    BoundsMerged(T, options, merged);
    q := FindOptionsForTagCounts(cls, options).value;
    assert q.joins == [TaggingsOfTag] + [TaggableRows(None)];
    TwoJoinsScoped(q, T, options);
  }

  /** The hash handed to `options_for_counts` when only bounds are given. */
  lemma BoundsMerged(T: string, options: Options, merged: Options)
    requires IntBounds(options)
    requires merged == options["conditions" := VCond(All([TypeIs(T)]))]["joins" := VJoins([TaggableRows(None)])]
    ensures merged.Keys <= CountKeys
    ensures Given(merged, "joins") && ToJoins(Get(merged, "joins")) == [TaggableRows(None)]
    ensures CountHaving(merged) == CountHaving(options)
    ensures CountConditions(merged) == [All([TypeIs(T)])] + WindowConds(options)
    ensures "joins" !in Residual(merged) && "conditions" !in Residual(merged)
  {
    assert Get(merged, "conditions") == VCond(All([TypeIs(T)])) && Get(merged, "joins") == VJoins([TaggableRows(None)]);
    assert Get(merged, "start_at") == Get(options, "start_at") && Get(merged, "end_at") == Get(options, "end_at");
    assert Get(merged, "at_least") == Get(options, "at_least") && Get(merged, "at_most") == Get(options, "at_most");
    assert WindowConds(merged) == WindowConds(options);
  }

  lemma TwoJoinsScoped(q: CountsQuery, T: string, options: Options)
    requires q.joins == [TaggingsOfTag, TaggableRows(None)]
    requires q.conditions == Some([All([TypeIs(T)])] + WindowConds(options))
    ensures CountSpec.Scoped(q)
  {
    var none: set<Slot> := {};
    assert q.joins[0] == TaggingsOfTag && q.joins[1..] == [TaggableRows(None)] && q.joins[1..][1..] == [];
    assert Needs(TaggingsOfTag).None? && Binds(TaggingsOfTag) == Some(TaggingSlot);
    assert Needs(TaggableRows(None)) == Some(TaggingSlot) && Binds(TaggableRows(None)) == Some(TaggableSlot);
    assert BoundBy(q.joins, none) == BoundBy([TaggableRows(None)], none + {TaggingSlot});
    assert BoundBy([TaggableRows(None)], none + {TaggingSlot}) == BoundBy([], none + {TaggingSlot} + {TaggableSlot});
    assert CondScoped(All([TypeIs(T)]), none + {TaggingSlot} + {TaggableSlot}) by {
      assert [TypeIs(T)][0] == TypeIs(T);
    }
  }

  /** The rows of the two joins, before the conditions. */
  lemma TwoJoinRows(db: Db, model: seq<nat>, env: Env, q: CountsQuery, x: Tag)
    requires q.joins == [TaggingsOfTag, TaggableRows(None)]
    ensures JoinAll(db, model, env, q.joins, [Start(x)]) ==
      ExtendAll(db, model, env, TaggableRows(None), WithTaggings(Start(x), db.taggings))
  {
    assert q.joins[1..] == [TaggableRows(None)] && q.joins[1..][1..] == [];
    var first := ExtendAll(db, model, env, TaggingsOfTag, [Start(x)]);
    calc {
      first;
      { assert [Start(x)][1..] == []; }
      Extend(db, model, env, TaggingsOfTag, Start(x)) + ExtendAll(db, model, env, TaggingsOfTag, []);
      WithTaggings(Start(x), db.taggings);
    }
    calc {
      JoinAll(db, model, env, q.joins, [Start(x)]);
      JoinAll(db, model, env, q.joins[1..], first);
      JoinAll(db, model, env, [], ExtendAll(db, model, env, TaggableRows(None), first));
    }
  }

  /** The conditions of the bounds-only query accept a tagging exactly when it
      is of the model's type and within the window. */
  lemma BoundsTypedWindow(env: Env, options: Options, T: string, x: Tag)
    requires IntBounds(options)
    ensures TypedWindow(env, [All([TypeIs(T)])] + WindowConds(options), x, T, IntBound(options, "start_at"), IntBound(options, "end_at"))
  {
    var from, until := IntBound(options, "start_at"), IntBound(options, "end_at");
    var conds := [All([TypeIs(T)])] + WindowConds(options);
    var s := IfGiven(options, "start_at", CreatedFrom(Get(options, "start_at")));
    var e := IfGiven(options, "end_at", CreatedUntil(Get(options, "end_at")));
    assert [TypeIs(T)][0] == TypeIs(T);
    forall i | 0 <= i < |conds| ensures TaggingLevel(conds[i]) {
      if i == 0 {
        assert conds[0] == All([TypeIs(T)]);
      }
    }
    forall g: Tagging | g.tagId == x.id
      ensures HoldsAll(conds, Start(x).(tagging := Some(g)), env) <==> g.taggableType == T && InWindow(g, from, until)
    {
      var r := Start(x).(tagging := Some(g));
      assert HoldsAll(conds, r, env) <==> Holds(All([TypeIs(T)]), r, env) && HoldsAll(s, r, env) && HoldsAll(e, r, env) by {
        assert conds[0] == All([TypeIs(T)]);
        assert forall i :: 0 <= i < |s| ==> conds[1 + i] == s[i];
        assert forall i :: 0 <= i < |e| ==> conds[1 + |s| + i] == e[i];
      }
      assert Holds(All([TypeIs(T)]), r, env) <==> g.taggableType == T by {
        assert [TypeIs(T)][0] == TypeIs(T);
      }
      if Given(options, "start_at") {
        assert s == [CreatedFrom(VInt(from.value))];
        HoldsOne(s[0], r, env);
      } else {
        assert s == [];
      }
      if Given(options, "end_at") {
        assert e == [CreatedUntil(VInt(until.value))];
        HoldsOne(e[0], r, env);
      } else {
        assert e == [];
      }
    }
  }

  lemma TagCountsGroup(db: Db, model: seq<nat>, env: Env, cls: ModelClass, options: Options, q: CountsQuery, x: Tag)
    requires IntBounds(options)
    requires q.joins == [TaggingsOfTag, TaggableRows(None)]
    requires q.conditions == Some([All([TypeIs(cls.baseClassName)])] + WindowConds(options))
    ensures |GroupRows(db, model, env, q, x)| ==
      TypedInWindow(db.taggings, model, cls.baseClassName, x.id, IntBound(options, "start_at"), IntBound(options, "end_at"))
  {
    TwoJoinRows(db, model, env, q, x);
    BoundsTypedWindow(env, options, cls.baseClassName, x);
    TypedRows(db, model, env, q.conditions.value, x, db.taggings, cls.baseClassName,
      IntBound(options, "start_at"), IntBound(options, "end_at"));
  }

  /** A falsy caller `:conditions` is never deleted, so `update` puts it over
      the built conditions: the taggable-type test is lost and the aggregate
      query has no condition at all. Otherwise the built conditions, which
      always hold the type test, are kept. */
  lemma NilConditionsDropTypeTest(cls: ModelClass, options: Options)
    requires FindOptionsForTagCounts(cls, options).Ok?
    ensures FindOptionsForTagCounts(cls, options).value.conditions.None? <==>
      "conditions" in options && !Given(options, "conditions")
  {
    var merged := TagCountsOptions(cls, options);
    if "conditions" in options && !Given(options, "conditions") {
      assert merged["conditions"] == options["conditions"];
      assert "conditions" in Residual(merged);
    } else {
      var conds := IfGiven(options, "conditions", ToCond(Get(options, "conditions"))) + [TypeIs(cls.baseClassName)];
      assert merged["conditions"] == VCond(All(conds));
      assert Given(merged, "conditions");
      assert CountConditions(merged) != [];
    }
  }
}
