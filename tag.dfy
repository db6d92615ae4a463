/** The `Tag` model: lookup by name, equality, the `count` attribute, the
    options of the aggregate count query, and the tag store that
    `find_or_create_with_like_by_name` inserts into. */
module Tags {
  import opened Schema
  import opened Values
  import opened CountSpec

  // ---------------------------------------------------------------------
  // Equality and the count attribute

  /** Anything `Tag#==` may be handed. */
  datatype Object = TagObject(tag: Tag, newRecord: bool) | OtherObject

  /** `Tag#==`: ActiveRecord's equality (a saved record of the class with the
      same id) or a tag with the same name. */
  predicate Equals(self: Tag, other: Object)
  {
    other.TagObject? && ((other.tag.id == self.id && !other.newRecord) || other.tag.name == self.name)
  }

  /** Only tags are ever equal to a tag. */
  lemma EqualsOnlyTags(self: Tag)
    ensures !Equals(self, OtherObject)
  {
  }

  /** A tag equals itself, saved or not. */
  lemma EqualsReflexive(self: Tag, newRecord: bool)
    ensures Equals(self, TagObject(self, newRecord))
  {
  }

  /** Between saved tags equality is symmetric. */
  lemma EqualsSymmetric(a: Tag, b: Tag)
    ensures Equals(a, TagObject(b, false)) <==> Equals(b, TagObject(a, false))
  {
  }

  /** An unsaved tag equals a saved one only by name, so whatever equals it
      unsaved equals it saved too, and the other way round. */
  lemma UnsavedEqualsSaved(a: Tag, b: Tag)
    ensures Equals(a, TagObject(b, true)) ==> Equals(a, TagObject(b, false)) && Equals(b, TagObject(a, false))
    ensures Equals(a, TagObject(b, false)) && a.id != b.id ==> Equals(a, TagObject(b, true))
  {
  }

  /** Between saved tags the relation is symmetric, but it is not transitive:
      one tag can share its id with a second and its name with a third. */
  lemma EqualsNotTransitive()
    ensures Equals(Tag(1, "a"), TagObject(Tag(1, "b"), false))
    ensures Equals(Tag(1, "b"), TagObject(Tag(2, "b"), false))
    ensures !Equals(Tag(1, "a"), TagObject(Tag(2, "b"), false))
  {
    assert "a" != "b" by { assert "a"[0] != "b"[0]; }
  }

  /** `Tag#count`: `read_attribute(:count).to_i`, so 0 on a record that was not
      loaded by a count query. */
  function Count(rec: TagRecord): (n: int)
    ensures rec.countAttr.None? ==> n == 0
    ensures rec.countAttr.Some? ==> n == rec.countAttr.value
  {
    match rec.countAttr
    case None => 0
    case Some(c) => c
  }

  // ---------------------------------------------------------------------
  // Lookup by name

  /** The condition `(tags.name LIKE n1 OR tags.name LIKE n2 ...)`. */
  datatype NameCondition = NameLikeAny(patterns: seq<string>)

  predicate MatchesName(c: NameCondition, x: Tag)
  {
    exists i :: 0 <= i < |c.patterns| && NameMatches(x.name, c.patterns[i])
  }

  /** The protected `Tag.tags_condition`: nil for no names, otherwise a
      disjunction that keeps a tag exactly when some name matches it. */
  function TagsCondition(names: seq<string>): (r: Option<NameCondition>)
    ensures r.None? <==> names == []
    ensures r.Some? ==> forall x :: MatchesName(r.value, x) <==> exists i :: 0 <= i < |names| && NameMatches(x.name, names[i])
  {
    if names == [] then None else Some(NameLikeAny(names))
  }

  /** `Tag.find(:all, :conditions => c)`: the matching rows in table order. */
  function Lookup(tags: seq<Tag>, c: NameCondition): (r: seq<Tag>)
    ensures |r| <= |tags|
    ensures forall x :: x in r <==> x in tags && MatchesName(c, x)
  {
    if tags == [] then []
    else (if MatchesName(c, tags[0]) then [tags[0]] else []) + Lookup(tags[1..], c)
  }

  /** One element of an array given to `find_from`. */
  datatype TagArg = ATag(tag: Tag, newRecord: bool) | AName(name: string)

  /** What `find_from` accepts: a tag, an array of tags and strings, or a tag list. */
  datatype TagsArg = OneTag(tag: Tag, newRecord: bool) | ArrayOf(items: seq<TagArg>) | ListOf(names: seq<string>)

  /** The first half of the partition: the saved tags, in order. */
  function SavedTags(items: seq<TagArg>): (r: seq<Tag>)
    ensures |r| <= |items|
    ensures forall x :: x in r <==> ATag(x, false) in items
  {
    if items == [] then []
    else (if items[0].ATag? && !items[0].newRecord then [items[0].tag] else []) + SavedTags(items[1..])
  }

  /** The second half of the partition, each element converted with `to_s`
      (a tag's `to_s` is its name). */
  function OtherNames(items: seq<TagArg>): (r: seq<string>)
    ensures |r| <= |items|
    ensures forall n :: n in r <==> AName(n) in items || exists x :: ATag(x, true) in items && x.name == n
  {
    if items == [] then []
    else
      (match items[0]
       case ATag(x, isNew) => if isNew then [x.name] else []
       case AName(n) => [n])
      + OtherNames(items[1..])
  }

  /** `Tag.find_from`: the saved tags given, followed by the table's tags that
      match the remaining names; no lookup at all when there are no names. */
  function FindFrom(tags: seq<Tag>, arg: TagsArg): (r: seq<Tag>)
    ensures arg.OneTag? ==> r == [arg.tag]
    ensures arg.ArrayOf? ==>
      var saved := SavedTags(arg.items);
      |saved| <= |r| && r[..|saved|] == saved &&
      (OtherNames(arg.items) == [] ==> r == saved) &&
      forall x :: x in r[|saved|..] <==> x in tags && exists n :: n in OtherNames(arg.items) && NameMatches(x.name, n)
    ensures arg.ListOf? ==>
      forall x :: x in r <==> x in tags && exists n :: n in arg.names && NameMatches(x.name, n)
  {
    match arg
    case OneTag(x, _) => [x]
    case ArrayOf(items) =>
      var saved := SavedTags(items);
      var names := OtherNames(items);
      if names == [] then saved
      else
        var found := Lookup(tags, TagsCondition(names).value);
        assert (saved + found)[|saved|..] == found;
        saved + found
    case ListOf(names) =>
      if names == [] then [] else Lookup(tags, TagsCondition(names).value)
  }

  // ---------------------------------------------------------------------
  // Tag.options_for_counts and Tag.counts

  const CountKeys: set<string> := {"start_at", "end_at", "conditions", "at_least", "at_most", "order", "limit", "joins"}

  /** The keys `options_for_counts` deletes, each only when its value is truthy. */
  const ConsumedKeys: set<string> := {"start_at", "end_at", "conditions", "at_least", "at_most", "joins"}

  /** The options left after the deletions. */
  function Residual(options: Options): (rest: Options)
    ensures forall k :: k in rest <==> k in options && !(k in ConsumedKeys && Given(options, k))
    ensures forall k :: k in rest ==> rest[k] == options[k]
  {
    map k | k in options && !(k in ConsumedKeys && Given(options, k)) :: options[k]
  }

  /** `[x] if options[k]`, for an optional query part. */
  function IfGiven<T>(options: Options, k: string, x: T): seq<T>
  {
    if Given(options, k) then [x] else []
  }

  /** `options_for_counts`: the WHERE conjuncts are the caller's condition,
      then `created_at >= start_at`, then `created_at <= end_at`, each present
      only when given (nil when none is); the joins are the tagging join then
      the caller's joins; HAVING is `count > 0`, then `count >= at_least`,
      then `count <= at_most`; whatever survives the deletions is merged over
      the result (so a falsy `:conditions` or `:joins` replaces the built one). */
  function OptionsForCounts(options: Options): (r: Result<CountsQuery>)
    ensures r.Err? <==> exists k :: k in options && k !in CountKeys
    ensures r.Err? ==> r.error == UnknownKeys(options.Keys - CountKeys)
    ensures r.Ok? ==> r.value.rest == Residual(options)
    ensures r.Ok? ==> |r.value.having| >= 1 && r.value.having[0] == CountPositive
  {
    if !(options.Keys <= CountKeys) then Err(UnknownKeys(options.Keys - CountKeys))
    else
      var conds := CountConditions(options);
      var rest := Residual(options);
      Ok(CountsQuery(
        if "joins" in rest then [] else CountJoins(options),
        if "conditions" in rest || conds == [] then None else Some(conds),
        CountHaving(options),
        rest))
  }

  /** `[conditions, start_at, end_at].compact`. */
  function CountConditions(options: Options): seq<RowCond>
  {
    IfGiven(options, "conditions", ToCond(Get(options, "conditions")))
    + IfGiven(options, "start_at", CreatedFrom(Get(options, "start_at")))
    + IfGiven(options, "end_at", CreatedUntil(Get(options, "end_at")))
  }

  /** The tagging join, then the caller's joins. */
  function CountJoins(options: Options): seq<CountJoin>
  {
    [TaggingsOfTag] + (if Given(options, "joins") then ToJoins(Get(options, "joins")) else [])
  }

  /** `count > 0`, then `count >= at_least`, then `count <= at_most`. */
  function CountHaving(options: Options): seq<Having>
  {
    [CountPositive]
    + IfGiven(options, "at_least", CountAtLeast(Get(options, "at_least")))
    + IfGiven(options, "at_most", CountAtMost(Get(options, "at_most")))
  }

  /** `Tag.counts`: the tags `find` returns for `options_for_counts(options)`;
      the inner None stands for a query that is not valid SQL. */
  function Counts(db: Db, model: seq<nat>, env: Env, options: Options): Result<Option<seq<TagRecord>>>
  {
    match OptionsForCounts(options)
    case Err(e) => Err(e)
    case Ok(q) => FindCounts(db, model, env, q)
  }

  /** A bound given with a falsy value: it is not deleted, so it reaches
      `find`, which does not accept it. */
  predicate FalsyBound(options: Options, k: string)
  {
    k in {"start_at", "end_at", "at_least", "at_most"} && k in options && !Given(options, k)
  }

  /** The keys left over for `find` that `find` refuses are the falsy bounds. */
  lemma RefusedAreFalsyBounds(options: Options)
    requires OptionsForCounts(options).Ok?
    ensures forall k :: k in OptionsForCounts(options).value.rest.Keys - FindKeys <==> FalsyBound(options, k)
  {
  }

  /** `Tag.counts` raises exactly when a bound is given with a falsy value,
      and names those keys. */
  lemma CountsRefuseFalsyBounds(db: Db, model: seq<nat>, env: Env, options: Options)
    requires OptionsForCounts(options).Ok?
    ensures Counts(db, model, env, options).Err? <==> exists k :: FalsyBound(options, k)
    ensures Counts(db, model, env, options).Err? ==>
      forall k :: k in Counts(db, model, env, options).error.keys <==> FalsyBound(options, k)
  {
    var q := OptionsForCounts(options).value;
    assert Counts(db, model, env, options) == FindCounts(db, model, env, q);
    RefusedAreFalsyBounds(options);
    if exists k :: FalsyBound(options, k) {
      var k :| FalsyBound(options, k);
      assert k in q.rest.Keys - FindKeys;
    }
    if !(q.rest.Keys <= FindKeys) {
      var k :| k in q.rest.Keys && k !in FindKeys;
      assert FalsyBound(options, k);
    }
  }

  /** A truthy `:conditions` whose condition is out of scope for any set of
      bound aliases makes the aggregate query invalid SQL. */
  lemma ConditionOutOfScope(db: Db, model: seq<nat>, env: Env, options: Options)
    requires Counts(db, model, env, options).Ok?
    requires Given(options, "conditions")
    requires forall b :: !CondScoped(ToCond(Get(options, "conditions")), b)
    ensures Counts(db, model, env, options).value.None?
  {
    var q := OptionsForCounts(options).value;
    var conds := CountConditions(options);
    assert conds[0] == ToCond(Get(options, "conditions"));
    assert "conditions" !in q.rest && q.conditions == Some(conds);
    assert Counts(db, model, env, options) == FindCounts(db, model, env, q);
  }

  /** A blank but truthy `:conditions` (such as `" "`) is wrapped as `( )`,
      which is an SQL error. */
  lemma BlankConditionsInvalid(db: Db, model: seq<nat>, env: Env, options: Options)
    requires Counts(db, model, env, options).Ok?
    requires Given(options, "conditions") && Blank(Get(options, "conditions"))
    ensures Counts(db, model, env, options).value.None?
  {
    ConditionOutOfScope(db, model, env, options);
  }

  /** The caller's `:order` and `:limit` reach `find` unchanged. */
  lemma OrderAndLimitPassThrough(options: Options, k: string)
    requires OptionsForCounts(options).Ok?
    requires k == "order" || k == "limit"
    requires k in options
    ensures k in OptionsForCounts(options).value.rest
    ensures OptionsForCounts(options).value.rest[k] == options[k]
  {
  }

  /** The conditions are nil exactly when a falsy `:conditions` key survives
      the deletions and replaces them, or when no condition, start or end is
      given. */
  lemma {:induction false} ConditionsNilWhenNoneGiven(options: Options)
    requires OptionsForCounts(options).Ok?
    ensures OptionsForCounts(options).value.conditions.None? <==>
      ("conditions" in options && !Given(options, "conditions")) ||
      (!Given(options, "conditions") && !Given(options, "start_at") && !Given(options, "end_at"))
  {
    var conds := CountConditions(options);
    assert Given(options, "conditions") ==> conds[0] == ToCond(Get(options, "conditions"));
    assert Given(options, "start_at") || Given(options, "end_at") ==> |conds| > 0;
    assert "conditions" in Residual(options) <==> "conditions" in options && !Given(options, "conditions");
  }

  /** A falsy `:conditions` key survives the deletions and, merged last,
      discards the caller's time bounds: it reaches `find` as it was given. */
  lemma FalsyConditionsDropBounds(options: Options)
    requires OptionsForCounts(options).Ok?
    requires "conditions" in options && !Given(options, "conditions")
    ensures OptionsForCounts(options).value.conditions.None?
    ensures "conditions" in OptionsForCounts(options).value.rest
    ensures OptionsForCounts(options).value.rest["conditions"] == options["conditions"]
  {
    assert "conditions" in Residual(options);
  }

  // ---------------------------------------------------------------------
  // What Tag.counts means when only time and frequency bounds are given

  /** An integer bound, when the option is given. */
  function IntBound(options: Options, k: string): Option<int>
  {
    if Given(options, k) && Get(options, k).VInt? then Some(Get(options, k).i) else None
  }

  /** Every bound that is given is an integer. */
  predicate IntBounds(options: Options)
  {
    forall k :: k in options ==> (k in {"start_at", "end_at", "at_least", "at_most", "order", "limit"} &&
      (k in {"start_at", "end_at", "at_least", "at_most"} && Given(options, k) ==> options[k].VInt?))
  }

  predicate InWindow(g: Tagging, from: Option<int>, until: Option<int>)
  {
    (from.Some? ==> g.createdAt >= from.value) && (until.Some? ==> g.createdAt <= until.value)
  }

  /** The number of taggings of tag `id` created within the inclusive window. */
  function TaggingsInWindow(taggings: seq<Tagging>, id: nat, from: Option<int>, until: Option<int>): nat
  {
    if taggings == [] then 0
    else
      (if taggings[0].tagId == id && InWindow(taggings[0], from, until) then 1 else 0)
      + TaggingsInWindow(taggings[1..], id, from, until)
  }

  predicate WithinFrequency(n: int, atLeast: Option<int>, atMost: Option<int>)
  {
    n >= 1 && (atLeast.Some? ==> n >= atLeast.value) && (atMost.Some? ==> n <= atMost.value)
  }

  lemma {:induction false} FilterNothing(rs: seq<Row>, env: Env)
    ensures Filter([], rs, env) == rs
  {
    if rs != [] {
      FilterNothing(rs[1..], env);
    }
  }

  /** The window conditions keep exactly the taggings created within it. */
  lemma {:induction false} WindowRows(conds: seq<RowCond>, x: Tag, taggings: seq<Tagging>, from: Option<int>, until: Option<int>, env: Env)
    requires forall g: Tagging :: HoldsAll(conds, Start(x).(tagging := Some(g)), env) <==> InWindow(g, from, until)
    ensures |Filter(conds, WithTaggings(Start(x), taggings), env)| == TaggingsInWindow(taggings, x.id, from, until)
  {
    if taggings != [] {
      var head := if taggings[0].tagId == x.id then [Start(x).(tagging := Some(taggings[0]))] else [];
      FilterConcat(conds, head, WithTaggings(Start(x), taggings[1..]), env);
      WindowRows(conds, x, taggings[1..], from, until, env);
    }
  }

  /** With only `start_at`, `end_at`, `at_least`, `at_most` (and `order`,
      `limit`) given, `Tag.counts` raises when a bound is falsy and otherwise
      returns each tag whose taggings within the inclusive time window number
      at least one, at least `at_least` and at most `at_most`, with that
      number as its count. */
  lemma CountsWithinBounds(db: Db, model: seq<nat>, env: Env, options: Options, x: Tag, n: int)
    requires IntBounds(options)
    ensures Counts(db, model, env, options).Ok? <==> forall k :: !FalsyBound(options, k)
    ensures Counts(db, model, env, options).Ok? ==>
      Counts(db, model, env, options).value.Some? &&
      (TagRecord(x, Some(n)) in Counts(db, model, env, options).value.value <==>
        x in db.tags &&
        n == TaggingsInWindow(db.taggings, x.id, IntBound(options, "start_at"), IntBound(options, "end_at")) &&
        WithinFrequency(n, IntBound(options, "at_least"), IntBound(options, "at_most")))
  {
    var q := BoundsOnlyQuery(options);
    CountsRefuseFalsyBounds(db, model, env, options);
    if Counts(db, model, env, options).Ok? {
      assert Counts(db, model, env, options) == Ok(EvalCounts(db, model, env, q));
      BoundsGroups(db, model, env, options, q, x, n);
    }
  }

  /** The groups of the bounds-only query. */
  lemma BoundsGroups(db: Db, model: seq<nat>, env: Env, options: Options, q: CountsQuery, x: Tag, n: int)
    requires IntBounds(options)
    requires OptionsForCounts(options) == Ok(q)
    requires q.joins == [TaggingsOfTag]
    requires q.conditions == if WindowConds(options) == [] then None else Some(WindowConds(options))
    requires q.having == CountHaving(options)
    requires Scoped(q)
    ensures TagRecord(x, Some(n)) in Groups(db, model, env, q, db.tags) <==>
      x in db.tags &&
      n == TaggingsInWindow(db.taggings, x.id, IntBound(options, "start_at"), IntBound(options, "end_at")) &&
      WithinFrequency(n, IntBound(options, "at_least"), IntBound(options, "at_most"))
  {
    GroupsExactly(db, model, env, q, db.tags, x, n);
    WindowGroup(db, model, env, options, q, x);
    if n >= 0 {
      HavingMeans(options, q.having, n);
    }
  }

  /** The window conjuncts, each present only when given. */
  function WindowConds(options: Options): seq<RowCond>
  {
    IfGiven(options, "start_at", CreatedFrom(Get(options, "start_at")))
    + IfGiven(options, "end_at", CreatedUntil(Get(options, "end_at")))
  }

  /** The query built when only bounds are given. */
  lemma BoundsOnlyQuery(options: Options) returns (q: CountsQuery)
    requires IntBounds(options)
    ensures OptionsForCounts(options) == Ok(q)
    ensures q.joins == [TaggingsOfTag]
    ensures q.conditions == if WindowConds(options) == [] then None else Some(WindowConds(options))
    ensures q.having == CountHaving(options)
    ensures Scoped(q)
  {
    assert !Given(options, "conditions") && !Given(options, "joins");
    assert CountConditions(options) == WindowConds(options);
    q := OptionsForCounts(options).value;
    var none: set<Slot> := {};
    assert q.joins[0] == TaggingsOfTag && q.joins[1..] == [];
    assert Needs(TaggingsOfTag).None? && Binds(TaggingsOfTag) == Some(TaggingSlot);
    assert BoundBy(q.joins, none) == BoundBy([], none + {TaggingSlot});
  }

  /** The group of a tag is its taggings within the window. */
  lemma WindowGroup(db: Db, model: seq<nat>, env: Env, options: Options, q: CountsQuery, x: Tag)
    requires IntBounds(options)
    requires q.joins == [TaggingsOfTag]
    requires q.conditions == if WindowConds(options) == [] then None else Some(WindowConds(options))
    ensures |GroupRows(db, model, env, q, x)| ==
      TaggingsInWindow(db.taggings, x.id, IntBound(options, "start_at"), IntBound(options, "end_at"))
  {
    var from, until := IntBound(options, "start_at"), IntBound(options, "end_at");
    var rows := JoinAll(db, model, env, q.joins, [Start(x)]);
    assert q.joins[1..] == [];
    calc {
      rows;
      JoinAll(db, model, env, [], ExtendAll(db, model, env, TaggingsOfTag, [Start(x)]));
      ExtendAll(db, model, env, TaggingsOfTag, [Start(x)]);
      Extend(db, model, env, TaggingsOfTag, Start(x)) + ExtendAll(db, model, env, TaggingsOfTag, []);
      WithTaggings(Start(x), db.taggings);
    }
    var conds := WindowConds(options);
    forall g: Tagging ensures HoldsAll(conds, Start(x).(tagging := Some(g)), env) <==> InWindow(g, from, until) {
      var r := Start(x).(tagging := Some(g));
      var s := IfGiven(options, "start_at", CreatedFrom(Get(options, "start_at")));
      var e := IfGiven(options, "end_at", CreatedUntil(Get(options, "end_at")));
      assert HoldsAll(conds, r, env) <==> HoldsAll(s, r, env) && HoldsAll(e, r, env) by {
        assert forall i :: 0 <= i < |s| ==> conds[i] == s[i];
        assert forall i :: 0 <= i < |e| ==> conds[|s| + i] == e[i];
      }
      if Given(options, "start_at") {
        assert s == [CreatedFrom(VInt(from.value))];
        HoldsOne(s[0], r, env);
      } else {
        assert s == [];
      }
      if Given(options, "end_at") {
        assert e == [CreatedUntil(VInt(until.value))];
        HoldsOne(e[0], r, env);
      } else {
        assert e == [];
      }
    }
    WindowRows(conds, x, db.taggings, from, until, env);
    if q.conditions.None? {
      FilterNothing(rows, env);
    }
  }

  lemma HoldsOne(c: RowCond, r: Row, env: Env)
    ensures HoldsAll([c], r, env) <==> Holds(c, r, env)
  {
    assert [c][0] == c;
  }

  lemma HavingMeans(options: Options, having: seq<Having>, n: nat)
    requires IntBounds(options)
    requires having == CountHaving(options)
    ensures n > 0 && HavingAll(having, n) <==> WithinFrequency(n, IntBound(options, "at_least"), IntBound(options, "at_most"))
  {
    if Given(options, "at_least") {
      assert having[1] == CountAtLeast(Get(options, "at_least"));
    }
    if Given(options, "at_most") {
      assert having[|having| - 1] == CountAtMost(Get(options, "at_most"));
    }
  }

  /** On a tag `Tag.counts` returns, `count` reads the aggregate: the number
      of joined rows of that tag that pass the conditions, a number that
      passes the HAVING clause. */
  lemma CountReadsAggregate(db: Db, model: seq<nat>, env: Env, options: Options, rec: TagRecord)
    requires Counts(db, model, env, options).Ok? && Counts(db, model, env, options).value.Some?
    requires rec in Counts(db, model, env, options).value.value
    ensures Count(rec) == |GroupRows(db, model, env, OptionsForCounts(options).value, rec.tag)|
    ensures HavingAll(OptionsForCounts(options).value.having, Count(rec))
  {
    CountsRespectHaving(db, model, env, OptionsForCounts(options).value, rec);
  }

  /** Every tag `Tag.counts` returns has a count of at least one. */
  lemma CountedTagsArePositive(db: Db, model: seq<nat>, env: Env, options: Options, rec: TagRecord)
    requires Counts(db, model, env, options).Ok? && Counts(db, model, env, options).value.Some?
    requires rec in Counts(db, model, env, options).value.value
    ensures Count(rec) >= 1
    ensures rec.tag in db.tags
  {
    CountsRespectHaving(db, model, env, OptionsForCounts(options).value, rec);
  }

  // ---------------------------------------------------------------------
  // The tag store

  /** The index of the first tag whose name is LIKE `name`. */
  function FirstLike(tags: seq<Tag>, name: string): (r: Option<nat>)
    ensures r.Some? ==> (r.value < |tags| && NameMatches(tags[r.value].name, name) &&
      forall i :: 0 <= i < r.value ==> !NameMatches(tags[i].name, name))
    ensures r.None? ==> forall i :: 0 <= i < |tags| ==> !NameMatches(tags[i].name, name)
  {
    if tags == [] then None
    else if NameMatches(tags[0].name, name) then Some(0)
    else
      match FirstLike(tags[1..], name)
      case None => None
      case Some(k) => Some(k + 1)
  }

  /** `find(:first, :conditions => ["name LIKE ?", name]) || create(:name => name)`
      on a table whose next id is `nextId`: the tag, the new table, the new next id. */
  function FindOrCreate(tags: seq<Tag>, nextId: nat, name: string): (r: (Tag, seq<Tag>, nat))
  {
    match FirstLike(tags, name)
    case Some(k) => (tags[k], tags, nextId)
    case None => (Tag(nextId, name), tags + [Tag(nextId, name)], nextId + 1)
  }

  /** The tag found or created matches the name (and is it exactly when
      created); the table keeps every row and grows by at most that tag. */
  lemma FindOrCreateFacts(tags: seq<Tag>, nextId: nat, name: string)
    ensures var (t, tags', _) := FindOrCreate(tags, nextId, name);
      NameMatches(t.name, name) && t in tags' &&
      |tags| <= |tags'| <= |tags| + 1 && tags'[..|tags|] == tags &&
      (|tags'| == |tags| + 1 ==> tags'[|tags|] == t && t.name == name) &&
      (|tags'| == |tags| <==> exists i :: 0 <= i < |tags| && NameMatches(tags[i].name, name))
  {
    var r := FindOrCreate(tags, nextId, name);
    assert r.1[..|tags|] == tags;
  }

  lemma GrowKeepsIntegrity(tags: seq<Tag>, t: Tag, taggings: seq<Tagging>)
    requires Integrity(Db(tags, taggings))
    ensures Integrity(Db(tags + [t], taggings))
  {
    forall i | 0 <= i < |taggings| ensures HasTagId(tags + [t], taggings[i].tagId) {
      var j :| 0 <= j < |tags| && tags[j].id == taggings[i].tagId;
      assert (tags + [t])[j] == tags[j];
    }
  }

  /** Ids are unique and below the next id. */
  predicate IdsBelow(tags: seq<Tag>, nextId: nat)
  {
    (forall i :: 0 <= i < |tags| ==> tags[i].id < nextId) &&
    (forall i, k :: 0 <= i < k < |tags| ==> tags[i].id != tags[k].id)
  }

  /** The `tags` and `taggings` tables. */
  class TagStore {
    var tags: seq<Tag>
    var taggings: seq<Tagging>
    var nextId: nat

    predicate Valid()
      reads this
    {
      IdsBelow(tags, nextId) && Integrity(Db(tags, taggings))
    }

    function Contents(): Db
      reads this
    {
      Db(tags, taggings)
    }

    constructor ()
      ensures Valid() && tags == [] && taggings == [] && nextId == 0
    {
      tags, taggings, nextId := [], [], 0;
    }

    /** `Tag.find_or_create_with_like_by_name`. */
    method FindOrCreateWithLikeByName(name: string) returns (t: Tag)
      requires Valid()
      modifies this
      ensures Valid()
      ensures taggings == old(taggings)
      ensures (t, tags, nextId) == FindOrCreate(old(tags), old(nextId), name)
      ensures HasTagId(tags, t.id)
    {
      var k := FirstLike(tags, name);
      if k.Some? {
        t := tags[k.value];
        assert tags[k.value].id == t.id;
      } else {
        t := Tag(nextId, name);
        GrowKeepsIntegrity(tags, t, taggings);
        tags := tags + [t];
        nextId := nextId + 1;
        assert tags[|tags| - 1].id == t.id;
      }
    }
  }
}
