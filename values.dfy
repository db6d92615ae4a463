/** Option hashes as Ruby callers pass them, and the pieces of the aggregate
    query on tags that the library assembles in place of SQL text. */
module Values {
  import opened Schema

  /** A value in an options hash. `VText` is something the library only
      forwards (a caller's SQL fragment, an `:order` clause); `VJoins` and
      `VCond` are join clauses and conditions the library assembled itself. */
  datatype Value =
    | VNil
    | VBool(b: bool)
    | VInt(i: int)
    | VText(s: string)
    | VJoins(joins: seq<CountJoin>)
    | VCond(cond: RowCond)

  /** A condition on one row of the tag/tagging join. */
  datatype RowCond =
    | Sql(fragment: Value)          // a caller's condition, passed through `sanitize_sql`
    | All(parts: seq<RowCond>)      // parenthesised conditions joined by AND
    | TypeIs(taggableType: string)  // taggings.taggable_type = T
    | CreatedFrom(bound: Value)     // taggings.created_at >= bound
    | CreatedUntil(bound: Value)    // taggings.created_at <= bound
    | TagIdIn(ids: seq<nat>)        // tags.id IN (ids)
    | TagIdNotIn(ids: seq<nat>)     // tags.id NOT IN (ids)
    | SourceTagIdIn(ids: seq<nat>)  // source_tags.id IN (ids)

  /** An INNER JOIN of the aggregate query, which starts from `tags`. */
  datatype CountJoin =
    | TaggingsOfTag                          // taggings ON tags.id = taggings.tag_id
    | TaggableRows(typeFilter: Option<string>) // <model table> ON id = taggings.taggable_id [AND taggable_type = T]
    | SourceTaggings(taggableType: string)   // taggings AS source_taggings ON the same taggable, type T
    | SourceTags                             // tags AS source_tags ON source_taggings.tag_id
    | CallerJoin(fragment: Value)            // a caller's `:joins`

  type Options = map<string, Value>

  /** Ruby truthiness: only nil and false are false. */
  predicate Truthy(v: Value)
  {
    !(v.VNil? || v == VBool(false))
  }

  /** `options[k]`, nil when absent. */
  function Get(o: Options, k: string): Value
  {
    if k in o then o[k] else VNil
  }

  /** `if options[k]`. */
  predicate Given(o: Options, k: string)
  {
    Truthy(Get(o, k))
  }

  /** The characters Ruby's `\s` matches: space, tab, line feed, vertical
      tab, form feed and carriage return. */
  predicate Space(c: char)
  {
    c == ' ' || c == '\t' || c == '\n' || c == '\U{B}' || c == '\U{C}' || c == '\r'
  }

  /** `v.blank?` for the values a condition can take: nil, false, and a
      string holding nothing but white space. */
  predicate Blank(v: Value)
  {
    v.VNil? || v == VBool(false) || (v.VText? && forall i :: 0 <= i < |v.s| ==> Space(v.s[i]))
  }

  /** The option keys `find` accepts (`VALID_FIND_OPTIONS` of Rails 2.3);
      `find` raises ArgumentError on any other key before it builds SQL. */
  const FindKeys: set<string> :=
    {"conditions", "include", "joins", "limit", "offset", "order", "select",
     "readonly", "group", "having", "from", "lock"}

  /** A value given as `:conditions`, as a row condition. */
  function ToCond(v: Value): RowCond
  {
    if v.VCond? then v.cond else Sql(v)
  }

  /** A value given as `:joins`, as join clauses. */
  function ToJoins(v: Value): seq<CountJoin>
  {
    if v.VJoins? then v.joins else [CallerJoin(v)]
  }
}
