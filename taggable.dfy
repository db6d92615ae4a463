/** A taggable record: its pending tag list, the cached tag-list column, the
    save-time synchronisation of its taggings, and its own tag counts. */
module Taggable {
  import opened Schema
  import opened Values
  import opened CountSpec
  import opened Tags
  import opened Finders

  // ---------------------------------------------------------------------
  // The tables as a value

  datatype Tables = Tables(tags: seq<Tag>, taggings: seq<Tagging>, nextId: nat)

  /** `has_many :tags, :through => :taggings`: for each tagging of the
      taggable, in table order, the tag rows it points to. */
  function LinkedTags(tags: seq<Tag>, taggings: seq<Tagging>, taggableType: string, id: nat): (r: seq<Tag>)
    ensures forall x :: x in r <==> x in tags && Carries(taggings, taggableType, id, x.id)
  {
    if taggings == [] then []
    else
      var head := if Owns(taggings[0], taggableType, id) then TagsWithId(tags, taggings[0].tagId) else [];
      var r := head + LinkedTags(tags, taggings[1..], taggableType, id);
      assert forall x: Tag :: Carries(taggings, taggableType, id, x.id) <==>
        (Owns(taggings[0], taggableType, id) && taggings[0].tagId == x.id) || Carries(taggings[1..], taggableType, id, x.id) by {
        forall x: Tag | Carries(taggings, taggableType, id, x.id)
          ensures (Owns(taggings[0], taggableType, id) && taggings[0].tagId == x.id) || Carries(taggings[1..], taggableType, id, x.id) {
          var i :| 0 <= i < |taggings| && Owns(taggings[i], taggableType, id) && taggings[i].tagId == x.id;
          if i > 0 {
            assert taggings[1..][i - 1] == taggings[i];
          }
        }
        forall x: Tag | Carries(taggings[1..], taggableType, id, x.id) ensures Carries(taggings, taggableType, id, x.id) {
          var i :| 0 <= i < |taggings[1..]| && Owns(taggings[1..][i], taggableType, id) && taggings[1..][i].tagId == x.id;
          assert taggings[i + 1] == taggings[1..][i];
        }
      }
      r
  }

  function TagsWithId(tags: seq<Tag>, id: nat): (r: seq<Tag>)
    ensures forall x :: x in r <==> x in tags && x.id == id
  {
    if tags == [] then []
    else (if tags[0].id == id then [tags[0]] else []) + TagsWithId(tags[1..], id)
  }

  /** Ruby `Array#-`: the elements of `a` that are not in `b`, every
      occurrence removed, in order. */
  function Minus(a: seq<string>, b: seq<string>): (r: seq<string>)
    ensures forall s :: s in r <==> s in a && s !in b
  {
    if a == [] then []
    else (if a[0] in b then [] else [a[0]]) + Minus(a[1..], b)
  }

  /** `tags.reject { |tag| list.include?(tag.name) }`. */
  function Rejected(tags: seq<Tag>, list: seq<string>): (r: seq<Tag>)
    ensures forall x :: x in r <==> x in tags && x.name !in list
  {
    if tags == [] then []
    else (if tags[0].name in list then [] else [tags[0]]) + Rejected(tags[1..], list)
  }

  /** The tagging table after destroying the taggable's taggings of the tags `ids`. */
  function Kept(taggings: seq<Tagging>, taggableType: string, id: nat, ids: seq<nat>): (r: seq<Tagging>)
    ensures forall g :: g in r <==> g in taggings && !(Owns(g, taggableType, id) && g.tagId in ids)
  {
    if taggings == [] then []
    else
      (if Owns(taggings[0], taggableType, id) && taggings[0].tagId in ids then [] else [taggings[0]])
      + Kept(taggings[1..], taggableType, id, ids)
  }

  /** `tags << Tag.find_or_create_with_like_by_name(name)`: find or create the
      tag, then a tagging of it on this taggable stamped `now`. */
  function Link(st: Tables, taggableType: string, id: nat, name: string, now: int): Tables
  {
    var (t, tags, nextId) := FindOrCreate(st.tags, st.nextId, name);
    Tables(tags, st.taggings + [Tagging(taggableType, id, t.id, now)], nextId)
  }

  /** `names.each { |name| Link }`, as a fold from the left. */
  function LinkAll(st: Tables, taggableType: string, id: nat, names: seq<string>, now: int): Tables
  {
    if names == [] then st
    else Link(LinkAll(st, taggableType, id, names[..|names| - 1], now), taggableType, id, names[|names| - 1], now)
  }

  /** The names of the pending list that no linked tag carries exactly. */
  function NewTagNames(st: Tables, taggableType: string, id: nat, list: seq<string>): seq<string>
  {
    Minus(list, Names(LinkedTags(st.tags, st.taggings, taggableType, id)))
  }

  /** The linked tags whose name is not in the pending list. */
  function OldTags(st: Tables, taggableType: string, id: nat, list: seq<string>): seq<Tag>
  {
    Rejected(LinkedTags(st.tags, st.taggings, taggableType, id), list)
  }

  /** The tagging table after the destroy step of `save_tags`. */
  function Destroyed(st: Tables, taggableType: string, id: nat, list: seq<string>): seq<Tagging>
  {
    var stale := OldTags(st, taggableType, id, list);
    if stale == [] then st.taggings else Kept(st.taggings, taggableType, id, Ids(stale))
  }

  /** The tables after `save_tags` with the pending list `list`. */
  function SaveTagsSpec(st: Tables, taggableType: string, id: nat, list: seq<string>, now: int): Tables
  {
    LinkAll(Tables(st.tags, Destroyed(st, taggableType, id, list), st.nextId), taggableType, id,
      NewTagNames(st, taggableType, id, list), now)
  }

  // ---------------------------------------------------------------------
  // What save_tags does

  /** Linking keeps every tag row and every tagging, and appends one tagging
      of this taggable per name, to a tag that matches the name. */
  lemma LinkAllFacts(st: Tables, taggableType: string, id: nat, names: seq<string>, now: int)
    ensures var r := LinkAll(st, taggableType, id, names, now);
      |st.tags| <= |r.tags| && r.tags[..|st.tags|] == st.tags &&
      |r.taggings| == |st.taggings| + |names| && r.taggings[..|st.taggings|] == st.taggings &&
      forall i :: 0 <= i < |names| ==> AddedFor(r, taggableType, id, r.taggings[|st.taggings| + i], names[i], now)
  {
    LinkAllKeeps(st, taggableType, id, names, now);
    LinkAllAdds(st, taggableType, id, names, now);
  }

  /** Linking only appends tag rows and taggings. */
  lemma {:induction false} LinkAllKeeps(st: Tables, taggableType: string, id: nat, names: seq<string>, now: int)
    ensures var r := LinkAll(st, taggableType, id, names, now);
      |st.tags| <= |r.tags| && r.tags[..|st.tags|] == st.tags &&
      |r.taggings| == |st.taggings| + |names| && r.taggings[..|st.taggings|] == st.taggings
    decreases |names|
  {
    if names != [] {
      var n := |names| - 1;
      var prev := LinkAll(st, taggableType, id, names[..n], now);
      LinkAllKeeps(st, taggableType, id, names[..n], now);
      var r := Link(prev, taggableType, id, names[n], now);
      LinkFacts(prev, taggableType, id, names[n], now);
      assert r.tags[..|st.tags|] == prev.tags[..|st.tags|];
      assert r.taggings[..|st.taggings|] == prev.taggings[..|st.taggings|];
    }
  }

  /** The i-th appended tagging is of this taggable, stamped `now`, to a tag
      matching the i-th name. */
  lemma {:induction false} LinkAllAdds(st: Tables, taggableType: string, id: nat, names: seq<string>, now: int)
    ensures var r := LinkAll(st, taggableType, id, names, now);
      |r.taggings| == |st.taggings| + |names| &&
      forall i :: 0 <= i < |names| ==> AddedFor(r, taggableType, id, r.taggings[|st.taggings| + i], names[i], now)
    decreases |names|
  {
    LinkAllKeeps(st, taggableType, id, names, now);
    if names != [] {
      var n := |names| - 1;
      var prev := LinkAll(st, taggableType, id, names[..n], now);
      LinkAllAdds(st, taggableType, id, names[..n], now);
      var r := Link(prev, taggableType, id, names[n], now);
      LinkFacts(prev, taggableType, id, names[n], now);
      forall i | 0 <= i < n ensures AddedFor(r, taggableType, id, r.taggings[|st.taggings| + i], names[i], now) {
        assert r.taggings[|st.taggings| + i] == prev.taggings[|st.taggings| + i];
        assert names[..n][i] == names[i];
        AddedForGrows(prev, r, taggableType, id, prev.taggings[|st.taggings| + i], names[i], now);
      }
    }
  }

  /** One link keeps every tag row and every tagging and appends one tagging
      of this taggable to a tag that matches the name. */
  lemma LinkFacts(st: Tables, taggableType: string, id: nat, name: string, now: int)
    ensures var r := Link(st, taggableType, id, name, now);
      |st.tags| <= |r.tags| && r.tags[..|st.tags|] == st.tags &&
      |r.taggings| == |st.taggings| + 1 && r.taggings[..|st.taggings|] == st.taggings &&
      AddedFor(r, taggableType, id, r.taggings[|st.taggings|], name, now)
  {
    FindOrCreateFacts(st.tags, st.nextId, name);
    var r := Link(st, taggableType, id, name, now);
    assert r.taggings[..|st.taggings|] == st.taggings;
  }

  /** A tagging added for a name stays so when tag rows are only appended. */
  lemma AddedForGrows(st: Tables, r: Tables, taggableType: string, id: nat, g: Tagging, name: string, now: int)
    requires |st.tags| <= |r.tags| && r.tags[..|st.tags|] == st.tags
    requires AddedFor(st, taggableType, id, g, name, now)
    ensures AddedFor(r, taggableType, id, g, name, now)
  {
    var x :| x in st.tags && x.id == g.tagId && NameMatches(x.name, name);
    var k :| 0 <= k < |st.tags| && st.tags[k] == x;
    assert r.tags[k] == x;
  }

  /** A tagging of this taggable, stamped `now`, of a tag of the table whose
      name matches `name`. */
  predicate AddedFor(st: Tables, taggableType: string, id: nat, g: Tagging, name: string, now: int)
  {
    Owns(g, taggableType, id) && g.createdAt == now &&
    exists x :: x in st.tags && x.id == g.tagId && NameMatches(x.name, name)
  }

  /** The destroy step removes exactly the taggable's taggings of tags whose
      name is not in the pending list; every other tagging stays. */
  lemma DestroyedExactly(st: Tables, taggableType: string, id: nat, list: seq<string>, g: Tagging)
    ensures g in Destroyed(st, taggableType, id, list) <==>
      g in st.taggings && !(Owns(g, taggableType, id) && exists x :: x in st.tags && x.id == g.tagId && x.name !in list)
  {
    var stale := OldTags(st, taggableType, id, list);
    if g in st.taggings && Owns(g, taggableType, id) && exists x :: x in st.tags && x.id == g.tagId && x.name !in list {
      var x :| x in st.tags && x.id == g.tagId && x.name !in list;
      var k :| 0 <= k < |st.taggings| && st.taggings[k] == g;
      assert Carries(st.taggings, taggableType, id, x.id);
      assert x in stale;
      InIds(stale, x.id);
    }
    if stale != [] && g in st.taggings && Owns(g, taggableType, id) && g.tagId in Ids(stale) {
      InIds(stale, g.tagId);
    }
  }

  /** The new names are the pending names that no linked tag carries
      exactly (compared by plain equality). */
  lemma NewTagNamesExactly(st: Tables, taggableType: string, id: nat, list: seq<string>, n: string)
    ensures n in NewTagNames(st, taggableType, id, list) <==>
      n in list && !exists x :: x in st.tags && x.name == n && Carries(st.taggings, taggableType, id, x.id)
  {
    var linked := LinkedTags(st.tags, st.taggings, taggableType, id);
    if n in Names(linked) {
      var i :| 0 <= i < |Names(linked)| && Names(linked)[i] == n;
      assert linked[i] in linked;
    }
    if exists x :: x in st.tags && x.name == n && Carries(st.taggings, taggableType, id, x.id) {
      var x :| x in st.tags && x.name == n && Carries(st.taggings, taggableType, id, x.id);
      var i :| 0 <= i < |linked| && linked[i] == x;
      assert Names(linked)[i] == n;
    }
  }

  /** `save_tags` with a pending list: no tag row is deleted or changed; the
      tagging table is the one left by the destroy step followed by one
      tagging stamped `now` per new name, of a tag matching that name. */
  lemma SaveTagsFacts(st: Tables, taggableType: string, id: nat, list: seq<string>, now: int, kept: seq<Tagging>, names: seq<string>)
    requires kept == Destroyed(st, taggableType, id, list) && names == NewTagNames(st, taggableType, id, list)
    ensures var r := SaveTagsSpec(st, taggableType, id, list, now);
      |st.tags| <= |r.tags| && r.tags[..|st.tags|] == st.tags &&
      |r.taggings| == |kept| + |names| && r.taggings[..|kept|] == kept &&
      forall i :: 0 <= i < |names| ==> AddedFor(r, taggableType, id, r.taggings[|kept| + i], names[i], now)
  {
    LinkAllStart(st, kept, names, taggableType, id, now);
  }

  lemma LinkAllStart(st: Tables, kept: seq<Tagging>, names: seq<string>, taggableType: string, id: nat, now: int)
    ensures var r := LinkAll(Tables(st.tags, kept, st.nextId), taggableType, id, names, now);
      |st.tags| <= |r.tags| && r.tags[..|st.tags|] == st.tags &&
      |r.taggings| == |kept| + |names| && r.taggings[..|kept|] == kept &&
      forall i :: 0 <= i < |names| ==> AddedFor(r, taggableType, id, r.taggings[|kept| + i], names[i], now)
  {
    LinkAllFacts(Tables(st.tags, kept, st.nextId), taggableType, id, names, now);
  }

  /** One link keeps the tag ids distinct and below the next id, and a tag
      row it adds has an id no earlier row can have. */
  lemma LinkIds(st: Tables, taggableType: string, id: nat, name: string, now: int)
    requires IdsBelow(st.tags, st.nextId)
    ensures var r := Link(st, taggableType, id, name, now);
      IdsBelow(r.tags, r.nextId) && st.nextId <= r.nextId && |r.tags| <= |st.tags| + 1 &&
      forall i :: |st.tags| <= i < |r.tags| ==> st.nextId <= r.tags[i].id
  {
    var r := Link(st, taggableType, id, name, now);
    if FirstLike(st.tags, name).None? {
      assert r.tags == st.tags + [Tag(st.nextId, name)] && r.nextId == st.nextId + 1;
    }
  }

  /** Linking keeps the tag ids distinct and below the next id, gives every
      tag row it adds an id no earlier row can have, and adds at most one tag
      row per name. */
  lemma {:induction false} LinkAllIds(st: Tables, taggableType: string, id: nat, names: seq<string>, now: int)
    requires IdsBelow(st.tags, st.nextId)
    ensures var r := LinkAll(st, taggableType, id, names, now);
      IdsBelow(r.tags, r.nextId) && st.nextId <= r.nextId && |r.tags| <= |st.tags| + |names| &&
      forall i :: |st.tags| <= i < |r.tags| ==> st.nextId <= r.tags[i].id
    decreases |names|
  {
    if names != [] {
      var n := |names| - 1;
      var prev := LinkAll(st, taggableType, id, names[..n], now);
      LinkAllIds(st, taggableType, id, names[..n], now);
      LinkIds(prev, taggableType, id, names[n], now);
      LinkFacts(prev, taggableType, id, names[n], now);
      var r := Link(prev, taggableType, id, names[n], now);
      forall i | |st.tags| <= i < |r.tags| ensures st.nextId <= r.tags[i].id {
        if i < |prev.tags| {
          assert r.tags[i] == prev.tags[i];
        }
      }
    }
  }

  /** Distinct ids: two rows with one id are one row. */
  lemma SameId(tags: seq<Tag>, nextId: nat, x: Tag, y: Tag)
    requires IdsBelow(tags, nextId) && x in tags && y in tags && x.id == y.id
    ensures x == y
  {
    var a :| 0 <= a < |tags| && tags[a] == x;
    var b :| 0 <= b < |tags| && tags[b] == y;
    assert !(a < b) && !(b < a);
  }

  /** A tagging left by the destroy step whose tag is named in the list. */
  predicate Survives(st: Tables, taggableType: string, id: nat, list: seq<string>, g: Tagging)
  {
    g in st.taggings && !(Owns(g, taggableType, id) && exists y :: y in st.tags && y.id == g.tagId && y.name !in list)
  }

  /** A linked tag named in the list keeps its tagging through the destroy
      step, and so stays linked in any tables that only append to `kept`. */
  lemma KeptListed(st: Tables, r: Tables, kept: seq<Tagging>, taggableType: string, id: nat, list: seq<string>, x: Tag)
    requires IdsBelow(st.tags, st.nextId)
    requires |st.tags| <= |r.tags| && r.tags[..|st.tags|] == st.tags
    requires |kept| <= |r.taggings| && r.taggings[..|kept|] == kept
    requires forall g :: Survives(st, taggableType, id, list, g) ==> g in kept
    requires x in st.tags && Carries(st.taggings, taggableType, id, x.id) && x.name in list
    ensures x in r.tags && Carries(r.taggings, taggableType, id, x.id)
  {
    var i :| 0 <= i < |st.taggings| && Owns(st.taggings[i], taggableType, id) && st.taggings[i].tagId == x.id;
    var g := st.taggings[i];
    forall y | y in st.tags && y.id == g.tagId ensures y.name in list {
      SameId(st.tags, st.nextId, x, y);
    }
    assert Survives(st, taggableType, id, list, g);
    var j :| 0 <= j < |kept| && kept[j] == g;
    assert r.taggings[j] == g;
    var k :| 0 <= k < |st.tags| && st.tags[k] == x;
    assert r.tags[k] == x;
  }

  /** A tag carried through a surviving tagging, in tables that only append
      tag rows with fresh ids, is a tag of the old table named in the list. */
  lemma SurvivorListed(st: Tables, r: Tables, taggableType: string, id: nat, list: seq<string>, g: Tagging, x: Tag)
    requires IdsBelow(st.tags, st.nextId) && Integrity(Db(st.tags, st.taggings))
    requires |st.tags| <= |r.tags| && r.tags[..|st.tags|] == st.tags
    requires forall i :: |st.tags| <= i < |r.tags| ==> st.nextId <= r.tags[i].id
    requires Survives(st, taggableType, id, list, g) && Owns(g, taggableType, id)
    requires x in r.tags && x.id == g.tagId
    ensures x.name in list
  {
    var a :| 0 <= a < |st.taggings| && st.taggings[a] == g;
    var b :| 0 <= b < |st.tags| && st.tags[b].id == g.tagId;
    var k :| 0 <= k < |r.tags| && r.tags[k] == x;
    assert k < |st.tags| by {
      assert st.tags[b].id < st.nextId;
    }
    assert st.tags[k] == x;
  }

  /** A tag carried through an appended tagging, in tables with distinct ids,
      matches the name that tagging was added for. */
  lemma AddedListed(r: Tables, taggableType: string, id: nat, g: Tagging, name: string, now: int, x: Tag)
    requires IdsBelow(r.tags, r.nextId)
    requires AddedFor(r, taggableType, id, g, name, now)
    requires x in r.tags && x.id == g.tagId
    ensures NameMatches(x.name, name)
  {
    var y :| y in r.tags && y.id == g.tagId && NameMatches(y.name, name);
    SameId(r.tags, r.nextId, x, y);
  }

  /** The destroy step keeps exactly the surviving taggings. */
  lemma DestroyedSurvivors(st: Tables, taggableType: string, id: nat, list: seq<string>)
    ensures forall g :: g in Destroyed(st, taggableType, id, list) <==> Survives(st, taggableType, id, list, g)
  {
    forall g ensures g in Destroyed(st, taggableType, id, list) <==> Survives(st, taggableType, id, list, g) {
      DestroyedExactly(st, taggableType, id, list, g);
    }
  }

  /** A tag linked before `save_tags` whose name is in the list is still
      linked afterwards. */
  lemma SaveTagsKeepsListed(st: Tables, taggableType: string, id: nat, list: seq<string>, now: int, x: Tag)
    requires IdsBelow(st.tags, st.nextId)
    requires x in LinkedTags(st.tags, st.taggings, taggableType, id) && x.name in list
    ensures var r := SaveTagsSpec(st, taggableType, id, list, now);
      x in LinkedTags(r.tags, r.taggings, taggableType, id)
  {
    var r := SaveTagsSpec(st, taggableType, id, list, now);
    var kept := Destroyed(st, taggableType, id, list);
    SaveTagsFacts(st, taggableType, id, list, now, kept, NewTagNames(st, taggableType, id, list));
    DestroyedSurvivors(st, taggableType, id, list);
    KeptListed(st, r, kept, taggableType, id, list, x);
  }

  /** After `save_tags`, every name of the list is carried by a linked tag
      whose name matches it. */
  lemma SaveTagsCarriesList(st: Tables, taggableType: string, id: nat, list: seq<string>, now: int, n: string)
    requires IdsBelow(st.tags, st.nextId)
    requires n in list
    ensures var r := SaveTagsSpec(st, taggableType, id, list, now);
      exists x :: x in LinkedTags(r.tags, r.taggings, taggableType, id) && NameMatches(x.name, n)
  {
    var r := SaveTagsSpec(st, taggableType, id, list, now);
    var kept := Destroyed(st, taggableType, id, list);
    var names := NewTagNames(st, taggableType, id, list);
    NewTagNamesExactly(st, taggableType, id, list, n);
    if n in names {
      SaveTagsFacts(st, taggableType, id, list, now, kept, names);
      var i :| 0 <= i < |names| && names[i] == n;
      var g := r.taggings[|kept| + i];
      assert AddedFor(r, taggableType, id, g, n, now);
      var x :| x in r.tags && x.id == g.tagId && NameMatches(x.name, n);
      assert Carries(r.taggings, taggableType, id, x.id);
      assert x in LinkedTags(r.tags, r.taggings, taggableType, id);
    } else {
      var x :| x in st.tags && x.name == n && Carries(st.taggings, taggableType, id, x.id);
      SaveTagsKeepsListed(st, taggableType, id, list, now, x);
      NameMatchesIsEquivalence(n, n, n);
    }
  }

  /** In tables that keep the surviving taggings and append one tagging per
      name of the list, with fresh tag ids, every linked tag matches some
      name of the list. */
  lemma LinkedMatchList(st: Tables, r: Tables, kept: seq<Tagging>, names: seq<string>, taggableType: string, id: nat, list: seq<string>, now: int, x: Tag)
    requires IdsBelow(st.tags, st.nextId) && Integrity(Db(st.tags, st.taggings)) && IdsBelow(r.tags, r.nextId)
    requires |st.tags| <= |r.tags| && r.tags[..|st.tags|] == st.tags
    requires forall i :: |st.tags| <= i < |r.tags| ==> st.nextId <= r.tags[i].id
    requires |r.taggings| == |kept| + |names| && r.taggings[..|kept|] == kept
    requires forall i :: 0 <= i < |names| ==> AddedFor(r, taggableType, id, r.taggings[|kept| + i], names[i], now)
    requires forall g :: g in kept ==> Survives(st, taggableType, id, list, g)
    requires forall n :: n in names ==> n in list
    requires x in r.tags && Carries(r.taggings, taggableType, id, x.id)
    ensures exists n :: n in list && NameMatches(x.name, n)
  {
    var j :| 0 <= j < |r.taggings| && Owns(r.taggings[j], taggableType, id) && r.taggings[j].tagId == x.id;
    var g := r.taggings[j];
    if j < |kept| {
      assert g == kept[j];
      SurvivorListed(st, r, taggableType, id, list, g, x);
      NameMatchesIsEquivalence(x.name, x.name, x.name);
    } else {
      var i := j - |kept|;
      AddedListed(r, taggableType, id, g, names[i], now, x);
      assert names[i] in names;
    }
  }

  /** After `save_tags`, every linked tag matches some name of the list. */
  lemma SaveTagsLinksOnlyList(st: Tables, taggableType: string, id: nat, list: seq<string>, now: int, x: Tag)
    requires IdsBelow(st.tags, st.nextId) && Integrity(Db(st.tags, st.taggings))
    requires var r := SaveTagsSpec(st, taggableType, id, list, now);
      x in LinkedTags(r.tags, r.taggings, taggableType, id)
    ensures exists n :: n in list && NameMatches(x.name, n)
  {
    var r := SaveTagsSpec(st, taggableType, id, list, now);
    var kept := Destroyed(st, taggableType, id, list);
    var names := NewTagNames(st, taggableType, id, list);
    SaveTagsFacts(st, taggableType, id, list, now, kept, names);
    LinkAllIds(Tables(st.tags, kept, st.nextId), taggableType, id, names, now);
    DestroyedSurvivors(st, taggableType, id, list);
    LinkedMatchList(st, r, kept, names, taggableType, id, list, now, x);
  }

  /** `save_tags` with a pending list: afterwards every name of the list is
      carried by a linked tag matching it, a linked tag named exactly in the
      list stays linked, every linked tag matches some name of the list, and
      the tag table grows by at most one row per new name. */
  lemma SaveTagsLinksExactlyList(st: Tables, taggableType: string, id: nat, list: seq<string>, now: int)
    requires IdsBelow(st.tags, st.nextId) && Integrity(Db(st.tags, st.taggings))
    ensures var r := SaveTagsSpec(st, taggableType, id, list, now);
      var after := LinkedTags(r.tags, r.taggings, taggableType, id);
      (forall n :: n in list ==> exists x :: x in after && NameMatches(x.name, n)) &&
      (forall x :: x in LinkedTags(st.tags, st.taggings, taggableType, id) && x.name in list ==> x in after) &&
      (forall x :: x in after ==> exists n :: n in list && NameMatches(x.name, n)) &&
      |r.tags| <= |st.tags| + |NewTagNames(st, taggableType, id, list)|
  {
    var r := SaveTagsSpec(st, taggableType, id, list, now);
    var after := LinkedTags(r.tags, r.taggings, taggableType, id);
    forall n | n in list ensures exists x :: x in after && NameMatches(x.name, n) {
      SaveTagsCarriesList(st, taggableType, id, list, now, n);
    }
    forall x | x in LinkedTags(st.tags, st.taggings, taggableType, id) && x.name in list ensures x in after {
      SaveTagsKeepsListed(st, taggableType, id, list, now, x);
    }
    forall x | x in after ensures exists n :: n in list && NameMatches(x.name, n) {
      SaveTagsLinksOnlyList(st, taggableType, id, list, now, x);
    }
    LinkAllIds(Tables(st.tags, Destroyed(st, taggableType, id, list), st.nextId), taggableType, id,
      NewTagNames(st, taggableType, id, list), now);
  }

  lemma KeptKeepsIntegrity(db: Db, taggableType: string, id: nat, ids: seq<nat>)
    requires Integrity(db)
    ensures Integrity(Db(db.tags, Kept(db.taggings, taggableType, id, ids)))
  {
    var kept := Kept(db.taggings, taggableType, id, ids);
    forall i | 0 <= i < |kept| ensures HasTagId(db.tags, kept[i].tagId) {
      assert kept[i] in kept;
      var k :| 0 <= k < |db.taggings| && db.taggings[k] == kept[i];
    }
  }

  lemma AppendKeepsIntegrity(db: Db, g: Tagging)
    requires Integrity(db) && HasTagId(db.tags, g.tagId)
    ensures Integrity(Db(db.tags, db.taggings + [g]))
  {
    forall i | 0 <= i < |db.taggings| + 1 ensures HasTagId(db.tags, (db.taggings + [g])[i].tagId) {
      if i < |db.taggings| {
        assert (db.taggings + [g])[i] == db.taggings[i];
      }
    }
  }

  // ---------------------------------------------------------------------
  // The record

  /** A record of a taggable model, over the shared tag and tagging tables. */
  class TaggableRecord {
    const store: TagStore
    const cls: ModelClass
    const id: nat
    /** `caching_tag_list?`: the model's table has the cached tag-list column. */
    const caching: bool
    /** The value of the cached tag-list column, as a list (nil when unset). */
    var cachedColumn: Option<seq<string>>
    /** `@tag_list`. */
    var tagList: Option<seq<string>>

    constructor (store: TagStore, cls: ModelClass, id: nat, caching: bool, cachedColumn: Option<seq<string>>)
      ensures this.store == store && this.cls == cls && this.id == id && this.caching == caching
      ensures this.cachedColumn == cachedColumn && tagList == None
    {
      this.store, this.cls, this.id, this.caching := store, cls, id, caching;
      this.cachedColumn, tagList := cachedColumn, None;
    }

    function Snapshot(): Tables
      reads store
    {
      Tables(store.tags, store.taggings, store.nextId)
    }

    /** The tags linked to this record. */
    function Linked(): seq<Tag>
      reads store
    {
      LinkedTags(store.tags, store.taggings, cls.baseClassName, id)
    }

    /** What a first read of `tag_list` loads: the cached column when caching
        is on and the column is not nil, otherwise the linked tags' names. */
    function Loaded(): seq<string>
      reads this, store
    {
      if caching && cachedColumn.Some? then cachedColumn.value else Names(Linked())
    }

    /** `tag_list`: memoised in `@tag_list`. */
    method TagList() returns (l: seq<string>)
      modifies this
      ensures l == if old(tagList).Some? then old(tagList).value else old(Loaded())
      ensures tagList == Some(l) && cachedColumn == old(cachedColumn)
    {
      if tagList.Some? {
        l := tagList.value;
      } else {
        if caching && cachedColumn.Some? {
          l := cachedColumn.value;
        } else {
          l := Names(Linked());
        }
        tagList := Some(l);
      }
    }

    /** `tag_list=`: replaces the memo. */
    method SetTagList(value: seq<string>)
      modifies this
      ensures tagList == Some(value) && cachedColumn == old(cachedColumn)
    {
      tagList := Some(value);
    }

    /** `save_cached_tag_list`: writes the (loaded) tag list to the column
        when the column exists, and does nothing otherwise. */
    method SaveCachedTagList()
      modifies this
      ensures caching ==> (tagList.Some? && cachedColumn == tagList &&
        tagList.value == if old(tagList).Some? then old(tagList).value else old(Loaded()))
      ensures !caching ==> tagList == old(tagList) && cachedColumn == old(cachedColumn)
    {
      if caching {
        var l := TagList();
        cachedColumn := Some(l);
      }
    }

    /** `reload_with_tag_list`: forgets the memo. */
    method Reload()
      modifies this
      ensures tagList == None && cachedColumn == old(cachedColumn)
    {
      tagList := None;
    }

    /** The destroy step of `save_tags`: the record's taggings of linked tags
        missing from `list` are destroyed. */
    method DestroyOldTaggings(list: seq<string>)
      requires store.Valid()
      modifies store
      ensures store.Valid()
      ensures Snapshot() == Tables(old(store.tags), Destroyed(old(Snapshot()), cls.baseClassName, id, list), old(store.nextId))
    {
      var T := cls.baseClassName;
      ghost var st := Snapshot();
      var oldTags := Rejected(Linked(), list);
      assert oldTags == OldTags(st, T, id, list);
      if oldTags != [] {
        KeptKeepsIntegrity(store.Contents(), T, id, Ids(oldTags));
        store.taggings := Kept(store.taggings, T, id, Ids(oldTags));
      }
    }

    /** `tags << Tag.find_or_create_with_like_by_name(name)`. */
    method LinkName(name: string, now: int)
      requires store.Valid()
      modifies store
      ensures store.Valid()
      ensures Snapshot() == Link(old(Snapshot()), cls.baseClassName, id, name, now)
    {
      var t := store.FindOrCreateWithLikeByName(name);
      var g := Tagging(cls.baseClassName, id, t.id, now);
      AppendKeepsIntegrity(store.Contents(), g);
      store.taggings := store.taggings + [g];
    }

    /** `save_tags`, as one atomic step over the shared tables. The result
        is `true` after a save and `false` where the source returns nil
        because the tag list was never loaded. */
    method SaveTags(now: int) returns (ok: bool)
      requires store.Valid()
      modifies store
      ensures ok <==> tagList.Some?
      ensures store.Valid()
      ensures tagList.None? ==> Snapshot() == old(Snapshot())
      ensures tagList.Some? ==> Snapshot() == SaveTagsSpec(old(Snapshot()), cls.baseClassName, id, tagList.value, now)
    {
      if tagList.None? {
        return false;
      }
      var list := tagList.value;
      var T := cls.baseClassName;
      ghost var st := Snapshot();
      var newNames := Minus(list, Names(Linked()));
      assert newNames == NewTagNames(st, T, id, list);
      DestroyOldTaggings(list);
      ghost var start := Snapshot();
      var i := 0;
      while i < |newNames|
        invariant 0 <= i <= |newNames|
        invariant store.Valid()
        invariant Snapshot() == LinkAll(start, T, id, newNames[..i], now)
      {
        LinkName(newNames[i], now);
        assert newNames[..i + 1][..i] == newNames[..i];
        i := i + 1;
      }
      assert newNames[..i] == newNames;
      assert start == Tables(st.tags, Destroyed(st, T, id, list), st.nextId);
      ok := true;
    }

    /** The instance `tag_counts`: no tags when nothing is linked, otherwise
        the class `tag_counts` with `tags.id IN (linked ids)` merged into the
        caller's conditions. */
    function TagCounts(model: seq<nat>, env: Env, options: Options): Result<Option<seq<TagRecord>>>
      reads store
    {
      InstanceTagCounts(Db(store.tags, store.taggings), model, env, cls, id, options)
    }
  }

  /** `merge_conditions(caller, TagIdIn(ids))`: the blank caller condition is
      dropped, the others are ANDed. */
  function MergeConditions(caller: Value, ids: seq<nat>): Value
  {
    VCond(All((if Blank(caller) then [] else [ToCond(caller)]) + [TagIdIn(ids)]))
  }

  /** The options the instance hands to the class `tag_counts`. */
  function InstanceOptions(options: Options, ids: seq<nat>): Options
  {
    options["conditions" := MergeConditions(Get(options, "conditions"), ids)]
  }

  function InstanceTagCounts(db: Db, model: seq<nat>, env: Env, cls: ModelClass, id: nat, options: Options): Result<Option<seq<TagRecord>>>
  {
    var ids := Ids(LinkedTags(db.tags, db.taggings, cls.baseClassName, id));
    if ids == [] then Ok(Some([]))
    else Finders.TagCounts(db, model, env, cls, InstanceOptions(options, ids))
  }

  /** Nothing linked: no counts. */
  lemma NoLinkedTagsNoCounts(db: Db, model: seq<nat>, env: Env, cls: ModelClass, id: nat, options: Options)
    requires LinkedTags(db.tags, db.taggings, cls.baseClassName, id) == []
    ensures InstanceTagCounts(db, model, env, cls, id, options) == Ok(Some([]))
  {
  }

  /** The aggregate query behind the instance `tag_counts`. */
  lemma InstanceQuery(cls: ModelClass, options: Options, ids: seq<nat>) returns (q: CountsQuery)
    requires FindOptionsForTagCounts(cls, InstanceOptions(options, ids)).Ok?
    ensures FindOptionsForTagCounts(cls, InstanceOptions(options, ids)) == Ok(q)
    ensures q.conditions.Some? && |q.conditions.value| > 0 &&
      q.conditions.value[0] == All([MergeConditions(Get(options, "conditions"), ids).cond, TypeIs(cls.baseClassName)])
  {
    var o := InstanceOptions(options, ids);
    var merged := TagCountsOptions(cls, o);
    q := FindOptionsForTagCounts(cls, o).value;
    assert Given(o, "conditions");
    var m := MergeConditions(Get(options, "conditions"), ids);
    assert Get(o, "conditions") == m && ToCond(m) == m.cond;
    assert IfGiven(o, "conditions", ToCond(Get(o, "conditions"))) + [TypeIs(cls.baseClassName)] == [m.cond, TypeIs(cls.baseClassName)];
    var left := map k | k in o && !(k in {"conditions", "joins"} && Given(o, k)) :: o[k];
    assert "conditions" !in left;
    assert Get(merged, "conditions") == VCond(All([MergeConditions(Get(options, "conditions"), ids).cond, TypeIs(cls.baseClassName)]));
    assert "conditions" !in Residual(merged);
    assert CountConditions(merged)[0] == All([MergeConditions(Get(options, "conditions"), ids).cond, TypeIs(cls.baseClassName)]);
  }

  /** Every tag the instance `tag_counts` returns is linked to the record. */
  lemma InstanceCountsAreLinked(db: Db, model: seq<nat>, env: Env, cls: ModelClass, id: nat, options: Options, recs: seq<TagRecord>, rec: TagRecord)
    requires InstanceTagCounts(db, model, env, cls, id, options) == Ok(Some(recs))
    requires rec in recs
    ensures rec.tag in db.tags && rec.countAttr.Some? && rec.countAttr.value >= 1
    ensures exists x :: x in db.tags && x.id == rec.tag.id && Carries(db.taggings, cls.baseClassName, id, x.id)
  {
    var linked := LinkedTags(db.tags, db.taggings, cls.baseClassName, id);
    var ids := Ids(linked);
    assert ids != [];
    var o := InstanceOptions(options, ids);
    assert Finders.TagCounts(db, model, env, cls, o) == Ok(Some(recs));
    var q := InstanceQuery(cls, options, ids);
    assert EvalCounts(db, model, env, q) == Some(recs);
    CountsRespectHaving(db, model, env, q, rec);
    var r := GroupWitness(db, model, env, q, rec.tag);
    assert Holds(q.conditions.value[0], r, env);
    MergedHolds(r, env, Get(options, "conditions"), ids, cls.baseClassName);
    InIds(linked, rec.tag.id);
  }

  /** A row that passes the merged instance condition has a tag id from `ids`. */
  lemma MergedHolds(r: Row, env: Env, caller: Value, ids: seq<nat>, taggableType: string)
    requires Holds(All([MergeConditions(caller, ids).cond, TypeIs(taggableType)]), r, env)
    ensures r.tag.id in ids
  {
    var parts := MergeConditions(caller, ids).cond.parts;
    assert [All(parts), TypeIs(taggableType)][0] == All(parts);
    assert Holds(All(parts), r, env);
    assert Holds(parts[|parts| - 1], r, env);
  }
}
