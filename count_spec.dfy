/** The aggregate query that `Tag.counts` hands to `find` —
    `SELECT tags.*, COUNT(*) AS count ... GROUP BY tags.id HAVING ...` —
    as a value, and what that query returns over the in-memory tables. */
module CountSpec {
  import opened Schema
  import opened Values

  /** One conjunct of the HAVING clause on `count`. */
  datatype Having = CountPositive | CountAtLeast(bound: Value) | CountAtMost(bound: Value)

  /** The find options built by `Tag.options_for_counts`: its joins (starting
      from `tags`), its WHERE conjuncts (nil when there are none), its HAVING
      conjuncts, and every caller key that was not consumed. */
  datatype CountsQuery = CountsQuery(joins: seq<CountJoin>, conditions: Option<seq<RowCond>>, having: seq<Having>, rest: Options)

  /** One row of the join: a tag and, once joined, a tagging of it, the
      taggable row of that tagging, a tagging of that taggable (the source
      tagging) and its tag (the source tag). */
  datatype Row = Row(tag: Tag, tagging: Option<Tagging>, taggable: Option<nat>, source: Option<Tagging>, sourceTag: Option<Tag>)

  /** A tag as `find` returns it, with the `count` column read from the query. */
  datatype TagRecord = TagRecord(tag: Tag, countAttr: Option<int>)

  /** What the caller's opaque SQL means: which rows a condition keeps and
      which rows a caller join keeps. */
  datatype Env = Env(cond: (Value, Row) -> bool, join: (Value, Row) -> bool)

  function Start(x: Tag): Row
  {
    Row(x, None, None, None, None)
  }

  // ---------------------------------------------------------------------
  // Scoping: a join may only use an alias an earlier join introduced, and
  // may not introduce one twice; a condition may only use joined aliases.
  // A query that breaks this is an SQL error.

  datatype Slot = TaggingSlot | TaggableSlot | SourceSlot | SourceTagSlot

  function Needs(j: CountJoin): Option<Slot>
  {
    match j
    case TaggingsOfTag => None
    case TaggableRows(_) => Some(TaggingSlot)
    case SourceTaggings(_) => Some(TaggableSlot)
    case SourceTags => Some(SourceSlot)
    case CallerJoin(_) => None
  }

  function Binds(j: CountJoin): Option<Slot>
  {
    match j
    case TaggingsOfTag => Some(TaggingSlot)
    case TaggableRows(_) => Some(TaggableSlot)
    case SourceTaggings(_) => Some(SourceSlot)
    case SourceTags => Some(SourceTagSlot)
    case CallerJoin(_) => None
  }

  /** The aliases bound after `js`, or None when a join is out of scope. */
  function BoundBy(js: seq<CountJoin>, bound: set<Slot>): Option<set<Slot>>
  {
    if js == [] then Some(bound)
    else
      var j := js[0];
      if (Needs(j).Some? && Needs(j).value !in bound) || (Binds(j).Some? && Binds(j).value in bound) then None
      else BoundBy(js[1..], if Binds(j).Some? then bound + {Binds(j).value} else bound)
  }

  /** Every test names a bound alias, and no caller fragment is blank:
      `options_for_counts` wraps each conjunct in parentheses, so a blank
      fragment leaves `()` or a dangling AND, which is an SQL error. */
  predicate CondScoped(c: RowCond, bound: set<Slot>)
  {
    match c
    case Sql(v) => !Blank(v)
    case All(parts) => forall i :: 0 <= i < |parts| ==> CondScoped(parts[i], bound)
    case TypeIs(_) => TaggingSlot in bound
    case CreatedFrom(_) => TaggingSlot in bound
    case CreatedUntil(_) => TaggingSlot in bound
    case SourceTagIdIn(_) => SourceTagSlot in bound
    case _ => true
  }

  predicate Scoped(q: CountsQuery)
  {
    var b := BoundBy(q.joins, {});
    b.Some? && (q.conditions.Some? ==> forall i :: 0 <= i < |q.conditions.value| ==> CondScoped(q.conditions.value[i], b.value))
  }

  // ---------------------------------------------------------------------
  // Conditions

  predicate Holds(c: RowCond, r: Row, env: Env)
  {
    match c
    case Sql(v) => env.cond(v, r)
    case All(parts) => forall i :: 0 <= i < |parts| ==> Holds(parts[i], r, env)
    case TypeIs(t) => r.tagging.Some? && r.tagging.value.taggableType == t
    case CreatedFrom(b) => r.tagging.Some? && b.VInt? && r.tagging.value.createdAt >= b.i
    case CreatedUntil(b) => r.tagging.Some? && b.VInt? && r.tagging.value.createdAt <= b.i
    case TagIdIn(ids) => r.tag.id in ids
    case TagIdNotIn(ids) => r.tag.id !in ids
    case SourceTagIdIn(ids) => r.sourceTag.Some? && r.sourceTag.value.id in ids
  }

  predicate HoldsAll(conds: seq<RowCond>, r: Row, env: Env)
  {
    forall i :: 0 <= i < |conds| ==> Holds(conds[i], r, env)
  }

  function Filter(conds: seq<RowCond>, rs: seq<Row>, env: Env): (res: seq<Row>)
    ensures |res| <= |rs|
    ensures forall r :: r in res <==> r in rs && HoldsAll(conds, r, env)
  {
    if rs == [] then []
    else (if HoldsAll(conds, rs[0], env) then [rs[0]] else []) + Filter(conds, rs[1..], env)
  }

  lemma {:induction false} FilterConcat(conds: seq<RowCond>, a: seq<Row>, b: seq<Row>, env: Env)
    ensures Filter(conds, a + b, env) == Filter(conds, a, env) + Filter(conds, b, env)
  {
    if a == [] {
      assert a + b == b;
    } else {
      assert (a + b)[1..] == a[1..] + b;
      FilterConcat(conds, a[1..], b, env);
    }
  }

  // ---------------------------------------------------------------------
  // Joins, one alias at a time (nested-loop semantics, table order).

  /** `INNER JOIN taggings ON tags.id = taggings.tag_id`. */
  function WithTaggings(r: Row, taggings: seq<Tagging>): (res: seq<Row>)
    ensures forall r' :: r' in res ==>
      r'.tag == r.tag && r'.taggable == r.taggable && r'.source == r.source && r'.sourceTag == r.sourceTag &&
      r'.tagging.Some? && r'.tagging.value in taggings && r'.tagging.value.tagId == r.tag.id
  {
    if taggings == [] then []
    else (if taggings[0].tagId == r.tag.id then [r.(tagging := Some(taggings[0]))] else []) + WithTaggings(r, taggings[1..])
  }

  /** `INNER JOIN <model table> ON <model table>.id = taggings.taggable_id [AND taggable_type = T]`. */
  function WithTaggable(r: Row, g: Tagging, model: seq<nat>, typeFilter: Option<string>): (res: seq<Row>)
    ensures forall r' :: r' in res ==>
      r'.tag == r.tag && r'.tagging == r.tagging && r'.source == r.source && r'.sourceTag == r.sourceTag &&
      r'.taggable == Some(g.taggableId) && g.taggableId in model &&
      (typeFilter.Some? ==> g.taggableType == typeFilter.value)
  {
    if model == [] then []
    else
      (if model[0] == g.taggableId && (typeFilter.None? || g.taggableType == typeFilter.value)
       then [r.(taggable := Some(model[0]))] else [])
      + WithTaggable(r, g, model[1..], typeFilter)
  }

  /** `INNER JOIN taggings AS source_taggings ON source_taggings.taggable_id = c AND taggable_type = T`. */
  function WithSource(r: Row, c: nat, taggableType: string, taggings: seq<Tagging>): (res: seq<Row>)
    ensures forall r' :: r' in res ==>
      r'.tag == r.tag && r'.tagging == r.tagging && r'.taggable == r.taggable && r'.sourceTag == r.sourceTag &&
      r'.source.Some? && r'.source.value in taggings && Owns(r'.source.value, taggableType, c)
  {
    if taggings == [] then []
    else
      (if Owns(taggings[0], taggableType, c) then [r.(source := Some(taggings[0]))] else [])
      + WithSource(r, c, taggableType, taggings[1..])
  }

  /** `INNER JOIN tags AS source_tags ON source_tags.id = source_taggings.tag_id`. */
  function WithSourceTag(r: Row, sg: Tagging, tags: seq<Tag>): (res: seq<Row>)
    ensures forall r' :: r' in res ==>
      r'.tag == r.tag && r'.tagging == r.tagging && r'.taggable == r.taggable && r'.source == r.source &&
      r'.sourceTag.Some? && r'.sourceTag.value in tags && r'.sourceTag.value.id == sg.tagId
  {
    if tags == [] then []
    else
      (if tags[0].id == sg.tagId then [r.(sourceTag := Some(tags[0]))] else [])
      + WithSourceTag(r, sg, tags[1..])
  }

  /** The rows one join produces from one row; none when the alias it needs
      is missing or the alias it introduces is taken. */
  function Extend(db: Db, model: seq<nat>, env: Env, j: CountJoin, r: Row): seq<Row>
  {
    match j
    case TaggingsOfTag =>
      if r.tagging.Some? then [] else WithTaggings(r, db.taggings)
    case TaggableRows(tf) =>
      if r.tagging.None? || r.taggable.Some? then [] else WithTaggable(r, r.tagging.value, model, tf)
    case SourceTaggings(t) =>
      if r.taggable.None? || r.source.Some? then [] else WithSource(r, r.taggable.value, t, db.taggings)
    case SourceTags =>
      if r.source.None? || r.sourceTag.Some? then [] else WithSourceTag(r, r.source.value, db.tags)
    case CallerJoin(v) =>
      if env.join(v, r) then [r] else []
  }

  function ExtendAll(db: Db, model: seq<nat>, env: Env, j: CountJoin, rs: seq<Row>): seq<Row>
  {
    if rs == [] then [] else Extend(db, model, env, j, rs[0]) + ExtendAll(db, model, env, j, rs[1..])
  }

  function JoinAll(db: Db, model: seq<nat>, env: Env, js: seq<CountJoin>, rs: seq<Row>): seq<Row>
    decreases |js|
  {
    if js == [] then rs else JoinAll(db, model, env, js[1..], ExtendAll(db, model, env, js[0], rs))
  }

  /** The rows of the group of tag `x`: its joined rows that pass every condition. */
  function GroupRows(db: Db, model: seq<nat>, env: Env, q: CountsQuery, x: Tag): seq<Row>
  {
    var rows := JoinAll(db, model, env, q.joins, [Start(x)]);
    if q.conditions.Some? then Filter(q.conditions.value, rows, env) else rows
  }

  predicate HavingHolds(h: Having, n: nat)
  {
    match h
    case CountPositive => n > 0
    case CountAtLeast(b) => b.VInt? && n >= b.i
    case CountAtMost(b) => b.VInt? && n <= b.i
  }

  predicate HavingAll(having: seq<Having>, n: nat)
  {
    forall i :: 0 <= i < |having| ==> HavingHolds(having[i], n)
  }

  /** One record per tag whose group is non-empty and passes HAVING, in table order. */
  function Groups(db: Db, model: seq<nat>, env: Env, q: CountsQuery, tags: seq<Tag>): (res: seq<TagRecord>)
    ensures forall rec :: rec in res ==>
      rec.tag in tags && rec.countAttr.Some? && Accepted(db, model, env, q, rec.tag, rec.countAttr.value)
  {
    if tags == [] then []
    else
      var n := |GroupRows(db, model, env, q, tags[0])|;
      (if Accepted(db, model, env, q, tags[0], n) then [TagRecord(tags[0], Some(n))] else [])
      + Groups(db, model, env, q, tags[1..])
  }

  /** The group of `x` has `n` rows, at least one, and passes HAVING. */
  predicate Accepted(db: Db, model: seq<nat>, env: Env, q: CountsQuery, x: Tag, n: int)
  {
    n == |GroupRows(db, model, env, q, x)| && n > 0 && HavingAll(q.having, n)
  }

  /** Grouping keeps exactly the accepted tags of the table. */
  lemma {:induction false} GroupsExactly(db: Db, model: seq<nat>, env: Env, q: CountsQuery, tags: seq<Tag>, x: Tag, n: int)
    ensures TagRecord(x, Some(n)) in Groups(db, model, env, q, tags) <==> x in tags && Accepted(db, model, env, q, x, n)
  {
    if tags != [] {
      GroupsExactly(db, model, env, q, tags[1..], x, n);
      if x == tags[0] && Accepted(db, model, env, q, x, n) {
        assert TagRecord(x, Some(n)) == Groups(db, model, env, q, tags)[0];
      }
    }
  }

  /** What `find(:all, q)` on `Tag` returns; None when the query is not valid SQL. */
  function EvalCounts(db: Db, model: seq<nat>, env: Env, q: CountsQuery): Option<seq<TagRecord>>
  {
    if Scoped(q) then Some(Groups(db, model, env, q, db.tags)) else None
  }

  /** `Tag.find(:all, q)`: the key check of `find`, then the query. Only the
      options left over from the caller can hold a key `find` refuses. */
  function FindCounts(db: Db, model: seq<nat>, env: Env, q: CountsQuery): Result<Option<seq<TagRecord>>>
  {
    if q.rest.Keys <= FindKeys then Ok(EvalCounts(db, model, env, q))
    else Err(UnknownKeys(q.rest.Keys - FindKeys))
  }

  // ---------------------------------------------------------------------
  // What a row of a join is guaranteed to satisfy.

  /** The ON clause of `j`, read on a row that has the aliases `j` binds. */
  predicate Satisfies(db: Db, model: seq<nat>, j: CountJoin, r: Row)
  {
    match j
    case TaggingsOfTag =>
      r.tagging.Some? && r.tagging.value in db.taggings && r.tagging.value.tagId == r.tag.id
    case TaggableRows(tf) =>
      r.tagging.Some? && r.taggable == Some(r.tagging.value.taggableId) && r.tagging.value.taggableId in model &&
      (tf.Some? ==> r.tagging.value.taggableType == tf.value)
    case SourceTaggings(t) =>
      r.taggable.Some? && r.source.Some? && r.source.value in db.taggings && Owns(r.source.value, t, r.taggable.value)
    case SourceTags =>
      r.source.Some? && r.sourceTag.Some? && r.sourceTag.value in db.tags && r.sourceTag.value.id == r.source.value.tagId
    case CallerJoin(_) => true
  }

  lemma ExtendKeeps(db: Db, model: seq<nat>, env: Env, j: CountJoin, r: Row, r': Row)
    requires r' in Extend(db, model, env, j, r)
    ensures r'.tag == r.tag
    ensures Satisfies(db, model, j, r')
    ensures forall j' :: Satisfies(db, model, j', r) ==> Satisfies(db, model, j', r')
  {
  }

  lemma {:induction false} ExtendAllKeeps(db: Db, model: seq<nat>, env: Env, j: CountJoin, rs: seq<Row>, r': Row)
    requires r' in ExtendAll(db, model, env, j, rs)
    ensures exists r :: (r in rs && r'.tag == r.tag && Satisfies(db, model, j, r') &&
      forall j' :: Satisfies(db, model, j', r) ==> Satisfies(db, model, j', r'))
  {
    if r' in Extend(db, model, env, j, rs[0]) {
      ExtendKeeps(db, model, env, j, rs[0], r');
    } else {
      ExtendAllKeeps(db, model, env, j, rs[1..], r');
      var r :| r in rs[1..] && r'.tag == r.tag && Satisfies(db, model, j, r') &&
        forall j' :: Satisfies(db, model, j', r) ==> Satisfies(db, model, j', r');
      assert r in rs;
    }
  }

  /** Every row of the group of `x` is a row of tag `x` that satisfies the ON
      clause of every join of the query. */
  lemma {:induction false} JoinAllKeeps(db: Db, model: seq<nat>, env: Env, js: seq<CountJoin>, x: Tag, rs: seq<Row>, r': Row)
    requires forall r :: r in rs ==> r.tag == x
    requires r' in JoinAll(db, model, env, js, rs)
    ensures r'.tag == x
    ensures forall j :: j in js ==> Satisfies(db, model, j, r')
    decreases |js|
  {
    if js != [] {
      var next := ExtendAll(db, model, env, js[0], rs);
      forall r | r in next ensures r.tag == x {
        ExtendAllKeeps(db, model, env, js[0], rs, r);
      }
      JoinAllKeeps(db, model, env, js[1..], x, next, r');
      assert r' in JoinAll(db, model, env, js[1..], next);
      ExtendKeepsThrough(db, model, env, js, rs, r');
    }
  }

  /** The first join's ON clause survives the later joins. */
  lemma {:induction false} ExtendKeepsThrough(db: Db, model: seq<nat>, env: Env, js: seq<CountJoin>, rs: seq<Row>, r': Row)
    requires js != []
    requires r' in JoinAll(db, model, env, js, rs)
    ensures Satisfies(db, model, js[0], r')
    decreases |js|
  {
    var next := ExtendAll(db, model, env, js[0], rs);
    forall r | r in next ensures Satisfies(db, model, js[0], r) {
      ExtendAllKeeps(db, model, env, js[0], rs, r);
    }
    SatisfiesThrough(db, model, env, js[0], js[1..], next, r');
  }

  lemma {:induction false} SatisfiesThrough(db: Db, model: seq<nat>, env: Env, j: CountJoin, js: seq<CountJoin>, rs: seq<Row>, r': Row)
    requires forall r :: r in rs ==> Satisfies(db, model, j, r)
    requires r' in JoinAll(db, model, env, js, rs)
    ensures Satisfies(db, model, j, r')
    decreases |js|
  {
    if js != [] {
      var next := ExtendAll(db, model, env, js[0], rs);
      forall r | r in next ensures Satisfies(db, model, j, r) {
        ExtendAllKeeps(db, model, env, js[0], rs, r);
      }
      SatisfiesThrough(db, model, env, j, js[1..], next, r');
    }
  }

  /** Every record `EvalCounts` returns carries a count of at least one that
      meets every HAVING conjunct, and is a tag of the table with that many
      rows in its group. */
  lemma CountsRespectHaving(db: Db, model: seq<nat>, env: Env, q: CountsQuery, rec: TagRecord)
    requires EvalCounts(db, model, env, q).Some?
    requires rec in EvalCounts(db, model, env, q).value
    ensures rec.tag in db.tags
    ensures rec.countAttr.Some? && rec.countAttr.value >= 1
    ensures HavingAll(q.having, rec.countAttr.value)
    ensures rec.countAttr.value == |GroupRows(db, model, env, q, rec.tag)|
  {
  }
}
