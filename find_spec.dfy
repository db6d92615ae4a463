/** The find options that `find_tagged_with` hands to the taggable model's
    `find`, as a value, and which taggable rows that find returns. */
module FindSpec {
  import opened Schema
  import opened Values

  /** A table alias: a plain name, or a name with a numeric suffix (`taggings_3`). */
  datatype Alias = Named(name: string) | Indexed(prefix: string, index: nat)

  /** A join from the model table. */
  datatype FindJoin =
      /** `INNER JOIN taggings AS ga ON ga.taggable_id = <model>.id AND ga.taggable_type = T
          INNER JOIN tags AS xa ON xa.id = ga.tag_id` */
    | TaggingAndTag(taggingAlias: Alias, tagAlias: Alias, taggableType: string)
      /** `INNER JOIN taggings AS ga ON ga.taggable_id = <model>.id AND ga.taggable_type = T AND ga.tag_id = id` */
    | TaggingWithTag(alias: Alias, tagId: nat, taggableType: string)

  /** A WHERE conjunct. */
  datatype FindCond =
    | CallerSql(fragment: Value)                           // the caller's `:conditions`
    | AliasIdIn(alias: Alias, ids: seq<nat>)               // xa.id IN (ids)
    | NotTaggedWithAny(ids: seq<nat>, taggableType: string) // <model>.id NOT IN (SELECT taggable_id ... WHERE used_tags.id IN (ids) AND taggable_type = T)

  /** `{ :select => ..., :joins => ..., :conditions => ... }` merged with the remaining caller options. */
  datatype FindQuery = FindQuery(distinct: bool, joins: seq<FindJoin>, conditions: seq<FindCond>, rest: Options)

  // ---------------------------------------------------------------------
  // Scoping

  function AliasesOf(js: seq<FindJoin>): seq<Alias>
  {
    if js == [] then []
    else
      (match js[0]
       case TaggingAndTag(ga, xa, _) => [ga, xa]
       case TaggingWithTag(a, _, _) => [a])
      + AliasesOf(js[1..])
  }

  predicate Distinct<T(==)>(s: seq<T>)
  {
    forall i, k :: 0 <= i < k < |s| ==> s[i] != s[k]
  }

  /** Is `a` the tag alias of one of the joins? */
  predicate IsTagAlias(js: seq<FindJoin>, a: Alias)
  {
    exists i :: 0 <= i < |js| && js[i].TaggingAndTag? && js[i].tagAlias == a
  }

  /** The aliases are distinct and every `id IN` test names a joined tag alias;
      anything else is an SQL error. */
  predicate Scoped(q: FindQuery)
  {
    Distinct(AliasesOf(q.joins)) &&
    forall i :: 0 <= i < |q.conditions| && q.conditions[i].AliasIdIn? ==> IsTagAlias(q.joins, q.conditions[i].alias)
  }

  /** The conjuncts can be joined with `" AND "`: a blank caller fragment
      next to another conjunct leaves a dangling AND, which is an SQL error.
      Alone it joins to a blank string, and `find` then adds no WHERE. */
  predicate Joinable(conds: seq<FindCond>)
  {
    |conds| > 1 ==> forall i :: 0 <= i < |conds| && conds[i].CallerSql? ==> !Blank(conds[i].fragment)
  }

  // ---------------------------------------------------------------------
  // Rows of the join, counted per taggable

  /** The taggings of one taggable, in table order. */
  function TaggingsOf(taggings: seq<Tagging>, taggableType: string, t: nat): (res: seq<Tagging>)
    ensures forall g :: g in res <==> g in taggings && Owns(g, taggableType, t)
  {
    if taggings == [] then []
    else (if Owns(taggings[0], taggableType, t) then [taggings[0]] else []) + TaggingsOf(taggings[1..], taggableType, t)
  }

  /** Does the tag id pass every `id IN` test on alias `a`? */
  predicate IdAllowed(conds: seq<FindCond>, a: Alias, id: nat)
  {
    forall i :: 0 <= i < |conds| && conds[i].AliasIdIn? && conds[i].alias == a ==> id in conds[i].ids
  }

  /** The number of tag rows with this id. */
  function TagRows(tags: seq<Tag>, id: nat): (n: nat)
    ensures n > 0 <==> HasTagId(tags, id)
  {
    if tags == [] then 0
    else
      var n := (if tags[0].id == id then 1 else 0) + TagRows(tags[1..], id);
      assert HasTagId(tags[1..], id) ==> HasTagId(tags, id);
      assert HasTagId(tags, id) && tags[0].id != id ==> HasTagId(tags[1..], id) by {
        if HasTagId(tags, id) && tags[0].id != id {
          var i :| 0 <= i < |tags| && tags[i].id == id;
          assert tags[1..][i - 1].id == id;
        }
      }
      n
  }

  /** Rows contributed to a taggable by a tagging/tag pair whose tag alias is `a`. */
  function PairRows(tags: seq<Tag>, gs: seq<Tagging>, a: Alias, conds: seq<FindCond>): (n: nat)
    ensures n > 0 <==> exists i :: 0 <= i < |gs| && IdAllowed(conds, a, gs[i].tagId) && HasTagId(tags, gs[i].tagId)
  {
    if gs == [] then 0
    else
      var n := (if IdAllowed(conds, a, gs[0].tagId) then TagRows(tags, gs[0].tagId) else 0) + PairRows(tags, gs[1..], a, conds);
      assert forall i :: 0 <= i < |gs[1..]| ==> gs[1..][i] == gs[i + 1];
      n
  }

  /** Rows contributed to a taggable by a tagging bound to the tag `id`. */
  function TagIdRows(gs: seq<Tagging>, id: nat): (n: nat)
    ensures n > 0 <==> exists i :: 0 <= i < |gs| && gs[i].tagId == id
  {
    if gs == [] then 0
    else
      var n := (if gs[0].tagId == id then 1 else 0) + TagIdRows(gs[1..], id);
      assert forall i :: 0 <= i < |gs[1..]| ==> gs[1..][i] == gs[i + 1];
      n
  }

  function JoinRows(db: Db, j: FindJoin, t: nat, conds: seq<FindCond>): nat
  {
    match j
    case TaggingAndTag(_, xa, ty) => PairRows(db.tags, TaggingsOf(db.taggings, ty, t), xa, conds)
    case TaggingWithTag(_, id, ty) => TagIdRows(TaggingsOf(db.taggings, ty, t), id)
  }

  /** Each join only refers to the model row, so the rows of a taggable are
      the product of what each join contributes. */
  function JoinProduct(db: Db, js: seq<FindJoin>, t: nat, conds: seq<FindCond>): (n: nat)
    ensures n > 0 <==> forall i :: 0 <= i < |js| ==> JoinRows(db, js[i], t, conds) > 0
  {
    if js == [] then 1
    else
      var head := JoinRows(db, js[0], t, conds);
      var tail := JoinProduct(db, js[1..], t, conds);
      assert forall i :: 0 <= i < |js[1..]| ==> js[1..][i] == js[i + 1];
      if head == 0 || tail == 0 then 0 else head * tail
  }

  /** Is the taggable tagged (through an existing tag row) with one of `ids`? */
  predicate TaggedWithAny(db: Db, taggableType: string, t: nat, ids: seq<nat>)
  {
    exists i :: 0 <= i < |db.taggings| && Owns(db.taggings[i], taggableType, t) &&
      db.taggings[i].tagId in ids && HasTagId(db.tags, db.taggings[i].tagId)
  }

  /** The conjuncts that test the model row itself. */
  predicate BaseHolds(db: Db, conds: seq<FindCond>, t: nat, sql: (Value, nat) -> bool)
  {
    forall i :: 0 <= i < |conds| ==>
      (conds[i].CallerSql? && !Blank(conds[i].fragment) ==> sql(conds[i].fragment, t)) &&
      (conds[i].NotTaggedWithAny? ==> !TaggedWithAny(db, conds[i].taggableType, t, conds[i].ids))
  }

  function RowCount(db: Db, q: FindQuery, t: nat, sql: (Value, nat) -> bool): nat
  {
    if BaseHolds(db, q.conditions, t, sql) then JoinProduct(db, q.joins, t, q.conditions) else 0
  }

  function Repeat(t: nat, n: nat): (r: seq<nat>)
    ensures |r| == n && forall i :: 0 <= i < n ==> r[i] == t
  {
    if n == 0 then [] else [t] + Repeat(t, n - 1)
  }

  /** The selected model rows, in table order: once per joined row, or once
      per model row that has a joined row under DISTINCT. */
  function Select(db: Db, q: FindQuery, model: seq<nat>, sql: (Value, nat) -> bool): (res: seq<nat>)
    ensures q.distinct ==> forall t :: t in res <==> t in model && RowCount(db, q, t, sql) > 0
  {
    if model == [] then []
    else
      var n := RowCount(db, q, model[0], sql);
      (if q.distinct then (if n > 0 then [model[0]] else []) else Repeat(model[0], n))
      + Select(db, q, model[1..], sql)
  }

  /** What `find(:all, q)` on the model returns (ignoring `:order` and `:limit`);
      None when the query is not valid SQL. */
  function EvalFind(db: Db, model: seq<nat>, sql: (Value, nat) -> bool, q: FindQuery): Option<seq<nat>>
  {
    if Scoped(q) && Joinable(q.conditions) then Some(Select(db, q, model, sql)) else None
  }

  /** `find(:all, q)`: the key check, then the query. The built `:select`,
      `:joins` and `:conditions` are always accepted, so only the caller's
      remaining options can be refused. */
  function Find(db: Db, model: seq<nat>, sql: (Value, nat) -> bool, q: FindQuery): Result<Option<seq<nat>>>
  {
    if q.rest.Keys <= FindKeys then Ok(EvalFind(db, model, sql, q))
    else Err(UnknownKeys(q.rest.Keys - FindKeys))
  }

  /** Under DISTINCT no taggable is returned twice. */
  lemma {:induction false} SelectDistinct(db: Db, q: FindQuery, model: seq<nat>, sql: (Value, nat) -> bool)
    requires q.distinct && Distinct(model)
    ensures Distinct(Select(db, q, model, sql))
  {
    if model != [] {
      assert Distinct(model[1..]) by {
        forall i, k | 0 <= i < k < |model[1..]| ensures model[1..][i] != model[1..][k] {
          assert model[1..][i] == model[i + 1] && model[1..][k] == model[k + 1];
        }
      }
      SelectDistinct(db, q, model[1..], sql);
      var tail := Select(db, q, model[1..], sql);
      assert model[0] !in model[1..];
    }
  }
}
