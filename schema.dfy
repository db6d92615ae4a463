/** The two tables the plugin reads and writes, and the small vocabulary
    shared by every other module. */
module Schema {

  datatype Option<T> = None | Some(value: T)

  /** An `ArgumentError` raised by `assert_valid_keys`, naming the unknown keys. */
  datatype Error = UnknownKeys(keys: set<string>)

  datatype Result<T> = Ok(value: T) | Err(error: Error)

  /** A row of the `tags` table. */
  datatype Tag = Tag(id: nat, name: string)

  /** A row of the `taggings` table: one taggable linked to one tag. */
  datatype Tagging = Tagging(taggableType: string, taggableId: nat, tagId: nat, createdAt: int)

  /** The two tables, in storage order. */
  datatype Db = Db(tags: seq<Tag>, taggings: seq<Tagging>)

  /** The taggable model class: its table and the name stored in `taggable_type`. */
  datatype ModelClass = ModelClass(tableName: string, baseClassName: string)

  function Lower(c: char): char
  {
    if 'A' <= c <= 'Z' then (c as int + 32) as char else c
  }

  function Fold(s: string): (r: string)
    ensures |r| == |s|
    ensures forall i :: 0 <= i < |s| ==> r[i] == Lower(s[i])
  {
    seq(|s|, i requires 0 <= i < |s| => Lower(s[i]))
  }

  /** `name LIKE pattern` for a pattern without wildcards, taken as
      case-insensitive equality (ASCII letters). */
  predicate NameMatches(name: string, pattern: string)
  {
    Fold(name) == Fold(pattern)
  }

  lemma NameMatchesIsEquivalence(a: string, b: string, c: string)
    ensures NameMatches(a, a)
    ensures NameMatches(a, b) ==> NameMatches(b, a)
    ensures NameMatches(a, b) && NameMatches(b, c) ==> NameMatches(a, c)
  {
  }

  /** Does some row of `tags` have this id? */
  predicate HasTagId(tags: seq<Tag>, id: nat)
  {
    exists i :: 0 <= i < |tags| && tags[i].id == id
  }

  /** Does `g` link the taggable `taggableId` of type `taggableType`? */
  predicate Owns(g: Tagging, taggableType: string, taggableId: nat)
  {
    g.taggableType == taggableType && g.taggableId == taggableId
  }

  /** Does the taggable carry a tagging for the tag `tagId`? */
  predicate Carries(taggings: seq<Tagging>, taggableType: string, taggableId: nat, tagId: nat)
  {
    exists i :: 0 <= i < |taggings| && Owns(taggings[i], taggableType, taggableId) && taggings[i].tagId == tagId
  }

  /** Every tagging points at an existing tag row (the foreign key). */
  predicate Integrity(db: Db)
  {
    forall i :: 0 <= i < |db.taggings| ==> HasTagId(db.tags, db.taggings[i].tagId)
  }

  /** The ids of a list of tags, in order. */
  function Ids(tags: seq<Tag>): (r: seq<nat>)
    ensures |r| == |tags|
    ensures forall i :: 0 <= i < |tags| ==> r[i] == tags[i].id
  {
    if tags == [] then [] else [tags[0].id] + Ids(tags[1..])
  }

  /** The names of a list of tags, in order (`tags.map(&:name)`). */
  function Names(tags: seq<Tag>): (r: seq<string>)
    ensures |r| == |tags|
    ensures forall i :: 0 <= i < |tags| ==> r[i] == tags[i].name
  {
    if tags == [] then [] else [tags[0].name] + Names(tags[1..])
  }

  /** How often `x` occurs in `s`. */
  function Occurrences(s: seq<nat>, x: nat): nat
  {
    if s == [] then 0 else (if s[0] == x then 1 else 0) + Occurrences(s[1..], x)
  }
}
