/**
 * The tag editor of `ui/tag_dialog.py`: the dialog holds the entities it
 * edits, the set of tag names it shows, and the text typed into its input
 * line; it loads the tags the entities share, adds and removes names, and
 * saves by replacing every entity's tag links with exactly its names.  The
 * database is the entity table of the store plus the tag table (names by
 * position, id = position + 1) and the entity–tag link table.
 */
module TagDialog {
  import opened Wrappers
  import opened Text
  import Sorting
  import opened Records
  import opened Entities

  // ---------------------------------------------------------------- tables

  datatype TagTables = TagTables(tables: Tables, tags: seq<string>, links: set<(nat, nat)>)

  predicate DistinctNames(xs: seq<string>)
  {
    forall i, j :: 0 <= i < j < |xs| ==> xs[i] != xs[j]
  }

  /** Entity rows are well formed, tag names are unique, and every link names an existing entity and tag. */
  predicate TagTablesOk(db: TagTables)
  {
    WellFormed(db.tables) && DistinctNames(db.tags) &&
    forall l :: l in db.links ==> 1 <= l.0 <= |db.tables.entities| && 1 <= l.1 <= |db.tags|
  }

  /** The id of the entity's row (`filter_by(path=…, entity_type=…).first()`), if it has one. */
  function EntityId(db: TagTables, e: MediaEntity): (r: Option<nat>)
    ensures r.Some? ==> 1 <= r.value <= |db.tables.entities|
  {
    match FindEntity(db.tables.entities, e.path, e.entityType.Value())
    case None => None
    case Some(k) => Some(k + 1)
  }

  /** The names of the tags linked to entity `id`. */
  function LinkedNames(db: TagTables, id: nat): set<string>
  {
    set k | 0 <= k < |db.tags| && (id, k + 1) in db.links :: db.tags[k]
  }

  // ------------------------------------------------------------ loading

  predicate Found(db: TagTables, e: MediaEntity)
  {
    EntityId(db, e).Some?
  }

  /** The tag sets of the entities that have a row, in order. */
  function FoundTagSets(db: TagTables, es: seq<MediaEntity>): seq<set<string>>
    decreases |es|
  {
    if es == [] then []
    else
      var prev := FoundTagSets(db, es[..|es| - 1]);
      var e := es[|es| - 1];
      if Found(db, e) then prev + [LinkedNames(db, EntityId(db, e).value)] else prev
  }

  /** `set.intersection(*sets)`, and the empty set when there are no sets. */
  function Common(sets: seq<set<string>>): (r: set<string>)
    ensures sets == [] ==> r == {}
    ensures sets != [] ==> forall t :: t in r <==> forall i :: 0 <= i < |sets| ==> t in sets[i]
    decreases |sets|
  {
    if |sets| <= 1 then (if sets == [] then {} else sets[0])
    else
      var prev := Common(sets[..|sets| - 1]);
      assert forall i :: 0 <= i < |sets| - 1 ==> sets[..|sets| - 1][i] == sets[i];
      prev * sets[|sets| - 1]
  }

  /** The tags the entity has, vacuously every tag when it has no row. */
  predicate HasTag(db: TagTables, e: MediaEntity, t: string)
  {
    Found(db, e) ==> t in LinkedNames(db, EntityId(db, e).value)
  }

  predicate AnyFound(db: TagTables, es: seq<MediaEntity>)
  {
    exists i :: 0 <= i < |es| && Found(db, es[i])
  }

  predicate AllIn(sets: seq<set<string>>, t: string)
  {
    forall j :: 0 <= j < |sets| ==> t in sets[j]
  }

  predicate AllHave(db: TagTables, es: seq<MediaEntity>, t: string)
  {
    forall i :: 0 <= i < |es| ==> HasTag(db, es[i], t)
  }

  lemma AllInSnoc(sets: seq<set<string>>, s: set<string>, t: string)
    ensures AllIn(sets + [s], t) <==> AllIn(sets, t) && t in s
  {
    var u := sets + [s];
    assert u[|sets|] == s;
    assert forall j :: 0 <= j < |sets| ==> u[j] == sets[j];
  }

  lemma AllHaveSnoc(db: TagTables, es: seq<MediaEntity>, t: string)
    requires es != []
    ensures AllHave(db, es, t) <==> AllHave(db, es[..|es| - 1], t) && HasTag(db, es[|es| - 1], t)
  {
    var pre := es[..|es| - 1];
    assert forall i :: 0 <= i < |pre| ==> pre[i] == es[i];
  }

  lemma AnyFoundSnoc(db: TagTables, es: seq<MediaEntity>)
    requires es != []
    ensures AnyFound(db, es) <==> AnyFound(db, es[..|es| - 1]) || Found(db, es[|es| - 1])
  {
    var n := |es| - 1;
    var pre := es[..n];
    assert forall i :: 0 <= i < n ==> pre[i] == es[i];
  }

  /** The found sets are non-empty iff some entity has a row. */
  lemma {:induction false} FoundTagSetsNonEmpty(db: TagTables, es: seq<MediaEntity>)
    ensures FoundTagSets(db, es) != [] <==> AnyFound(db, es)
    decreases |es|
  {
    if es != [] {
      FoundTagSetsNonEmpty(db, es[..|es| - 1]);
      AnyFoundSnoc(db, es);
    }
  }

  /** A tag is in every found set iff every entity with a row has it. */
  lemma {:induction false} FoundTagSetsAll(db: TagTables, es: seq<MediaEntity>, t: string)
    ensures AllIn(FoundTagSets(db, es), t) <==> AllHave(db, es, t)
    decreases |es|
  {
    if es != [] {
      var e := es[|es| - 1];
      FoundTagSetsAll(db, es[..|es| - 1], t);
      AllHaveSnoc(db, es, t);
      if Found(db, e) {
        AllInSnoc(FoundTagSets(db, es[..|es| - 1]), LinkedNames(db, EntityId(db, e).value), t);
      }
    }
  }

  /** `_load_entity_tags` for several entities: the tags every entity with a row has; none when no entity has one. */
  function LoadedTags(db: TagTables, es: seq<MediaEntity>): set<string>
  {
    Common(FoundTagSets(db, es))
  }

  /** A tag is loaded iff some entity has a row and every entity with a row carries the tag. */
  lemma LoadedTagsMeaning(db: TagTables, es: seq<MediaEntity>, t: string)
    ensures t in LoadedTags(db, es) <==> AnyFound(db, es) && AllHave(db, es, t)
  {
    FoundTagSetsNonEmpty(db, es);
    FoundTagSetsAll(db, es, t);
  }

  /** The single-entity branch: the entity's tags when it has a row, else nothing. */
  function SingleTags(db: TagTables, e: MediaEntity): set<string>
  {
    if Found(db, e) then LinkedNames(db, EntityId(db, e).value) else {}
  }

  /** The two branches of `_load_entity_tags` agree on one entity. */
  lemma SingleLikeMulti(db: TagTables, e: MediaEntity)
    ensures SingleTags(db, e) == LoadedTags(db, [e])
  {
    assert [e][..0] == [];
    assert FoundTagSets(db, [e]) == if Found(db, e) then [LinkedNames(db, EntityId(db, e).value)] else [];
  }

  // ------------------------------------------------------------ display

  /** The list widget shows each name once, in sorted order. */
  predicate Shows(list: seq<string>, names: set<string>)
  {
    (forall i, j :: 0 <= i < j < |list| ==> Sorting.StrLe(list[i], list[j])) &&
    multiset(list) == multiset(names)
  }

  /** The list is fixed by the names: `sorted` of a set has one outcome. */
  lemma ShowsUnique(a: seq<string>, b: seq<string>, names: set<string>)
    requires Shows(a, names) && Shows(b, names)
    ensures a == b
  {
    Sorting.SortedStringsUnique(a, b);
  }

  // ---------------------------------------------------------------- saving

  /** `query(Tag).filter_by(name=…).first()`: the position of the tag stored under exactly this name. */
  function FindTag(tags: seq<string>, name: string): (r: Option<nat>)
    ensures r.Some? ==> r.value < |tags| && tags[r.value] == name
    ensures r.None? ==> name !in tags
  {
    if tags == [] then None
    else if tags[0] == name then Some(0)
    else match FindTag(tags[1..], name)
      case None => None
      case Some(k) => Some(k + 1)
  }

  /** The name `Tag.validate_name` stores for a non-blank name. */
  function StoredName(name: string): string
  {
    Lower(Strip(name))
  }

  /** The names `stored` maps the given names to. */
  function Image(names: seq<string>, stored: string -> string): set<string>
  {
    set n | n in names :: stored(n)
  }

  /** The names the tag table holds for the given names. */
  function StoredNames(names: seq<string>): set<string>
  {
    Image(names, StoredName)
  }

  const UniqueTagName := "IntegrityError: UNIQUE constraint failed: tags.name"
  const UniqueTagLink := "IntegrityError: UNIQUE constraint failed: entity_tags.entity_id, entity_tags.tag_id"

  /**
   * The tag loop of `_save_tags` as written: a name is looked up by its
   * exact text and, when absent, created; the created row stores the
   * validated (stripped, lower-cased) name, which breaks the unique
   * constraint when a tag already has that name.
   */
  function TagIdsAsWritten(tags: seq<string>, names: seq<string>): (r: Result<(seq<string>, map<string, nat>)>)
    decreases |names|
  {
    if names == [] then Ok((tags, map[]))
    else
      var pre := names[..|names| - 1];
      var name := names[|names| - 1];
      match TagIdsAsWritten(tags, pre)
      case Err(e) => Err(e)
      case Ok(acc) =>
        match FindTag(acc.0, name)
        case Some(k) => Ok((acc.0, acc.1[name := k + 1]))
        case None =>
          match ValidateTagName(name)
          case Err(e) => Err(e)
          case Ok(v) =>
            if v in acc.0 then Err(UniqueTagName)
            else Ok((acc.0 + [v], acc.1[name := |acc.0| + 1]))
  }

  /** Tag rows extend `tags` with unique names, and each of `names` is keyed to the id of a row. */
  predicate Shaped(tags: seq<string>, names: seq<string>, acc: (seq<string>, map<string, nat>))
  {
    DistinctNames(acc.0) && |tags| <= |acc.0| && acc.0[..|tags|] == tags &&
    acc.1.Keys == (set n | n in names) &&
    forall n :: n in acc.1 ==> 1 <= acc.1[n] <= |acc.0|
  }

  lemma ShapedKeyed(tags: seq<string>, pre: seq<string>, acc: (seq<string>, map<string, nat>), name: string, id: nat)
    requires Shaped(tags, pre, acc) && 1 <= id <= |acc.0|
    ensures Shaped(tags, pre + [name], (acc.0, acc.1[name := id]))
  {
    assert (set n | n in pre + [name]) == (set n | n in pre) + {name};
  }

  lemma ShapedCreated(tags: seq<string>, pre: seq<string>, acc: (seq<string>, map<string, nat>), name: string, v: string)
    requires Shaped(tags, pre, acc) && v !in acc.0
    ensures Shaped(tags, pre + [name], (acc.0 + [v], acc.1[name := |acc.0| + 1]))
  {
    assert (set n | n in pre + [name]) == (set n | n in pre) + {name};
    var rows := acc.0 + [v];
    assert rows[..|tags|] == acc.0[..|tags|];
  }

  /** Each name gets the id of a tag row, and the created rows keep the tag names unique. */
  lemma {:induction false} TagIdsAsWrittenShape(tags: seq<string>, names: seq<string>)
    requires DistinctNames(tags)
    ensures TagIdsAsWritten(tags, names).Ok? ==> Shaped(tags, names, TagIdsAsWritten(tags, names).value)
    decreases |names|
  {
    if names == [] {
      assert tags[..|tags|] == tags;
    } else {
      var pre := names[..|names| - 1];
      var name := names[|names| - 1];
      assert names == pre + [name];
      TagIdsAsWrittenShape(tags, pre);
      match TagIdsAsWritten(tags, pre)
      case Err(_) =>
      case Ok(acc) =>
        match FindTag(acc.0, name)
        case Some(k) => ShapedKeyed(tags, pre, acc, name, k + 1);
        case None =>
          match ValidateTagName(name)
          case Err(_) =>
          case Ok(v) =>
            if v !in acc.0 {
              ShapedCreated(tags, pre, acc, name, v);
            }
    }
  }

  /** The tag loop with the lookup made under the stored name, so that no row is created twice. */
  function TagIds(tags: seq<string>, names: seq<string>): (r: Result<(seq<string>, map<string, nat>)>)
    decreases |names|
  {
    if names == [] then Ok((tags, map[]))
    else
      var pre := names[..|names| - 1];
      var name := names[|names| - 1];
      match TagIds(tags, pre)
      case Err(e) => Err(e)
      case Ok(acc) =>
        match ValidateTagName(name)
        case Err(e) => Err(e)
        case Ok(v) => Ok(WithTag(acc, name, v))
  }

  /** One step of the corrected loop: `name` is keyed to the row named `v`, created when missing. */
  function WithTag(acc: (seq<string>, map<string, nat>), name: string, v: string): (seq<string>, map<string, nat>)
  {
    match FindTag(acc.0, v)
    case Some(k) => (acc.0, acc.1[name := k + 1])
    case None => (acc.0 + [v], acc.1[name := |acc.0| + 1])
  }

  /** Tag rows extend `tags` with unique names, and each of `names` is keyed to the row holding `stored` of it. */
  predicate KeyedBy(tags: seq<string>, names: seq<string>, acc: (seq<string>, map<string, nat>), stored: string -> string)
  {
    DistinctNames(acc.0) && |tags| <= |acc.0| && acc.0[..|tags|] == tags &&
    acc.1.Keys == (set n | n in names) &&
    forall n :: n in acc.1 ==> 1 <= acc.1[n] <= |acc.0| && acc.0[acc.1[n] - 1] == stored(n)
  }

  lemma WithTagKeeps(tags: seq<string>, pre: seq<string>, acc: (seq<string>, map<string, nat>), name: string,
                     stored: string -> string)
    requires KeyedBy(tags, pre, acc, stored)
    ensures KeyedBy(tags, pre + [name], WithTag(acc, name, stored(name)), stored)
  {
    match FindTag(acc.0, stored(name))
    case Some(k) =>
      FoundTagKeeps(tags, pre, acc, name, k, stored);
    case None =>
      NewTagKeeps(tags, pre, acc, name, stored);
  }

  lemma FoundTagKeeps(tags: seq<string>, pre: seq<string>, acc: (seq<string>, map<string, nat>), name: string, k: nat,
                      stored: string -> string)
    requires KeyedBy(tags, pre, acc, stored)
    requires k < |acc.0| && acc.0[k] == stored(name)
    ensures KeyedBy(tags, pre + [name], (acc.0, acc.1[name := k + 1]), stored)
  {
    assert (set n | n in pre + [name]) == (set n | n in pre) + {name};
  }

  lemma NewTagKeeps(tags: seq<string>, pre: seq<string>, acc: (seq<string>, map<string, nat>), name: string,
                    stored: string -> string)
    requires KeyedBy(tags, pre, acc, stored)
    requires stored(name) !in acc.0
    ensures KeyedBy(tags, pre + [name], (acc.0 + [stored(name)], acc.1[name := |acc.0| + 1]), stored)
  {
    assert (set n | n in pre + [name]) == (set n | n in pre) + {name};
    var rows := acc.0 + [stored(name)];
    assert rows[..|tags|] == acc.0[..|tags|];
    assert forall n :: n in acc.1 ==> rows[acc.1[n] - 1] == acc.0[acc.1[n] - 1];
  }

  /** The corrected loop fails exactly when some name is blank. */
  lemma {:induction false} TagIdsOk(tags: seq<string>, names: seq<string>)
    ensures TagIds(tags, names).Ok? <==> forall n :: n in names ==> !IsBlank(n)
    decreases |names|
  {
    if names != [] {
      var pre := names[..|names| - 1];
      var name := names[|names| - 1];
      assert names == pre + [name];
      TagIdsOk(tags, pre);
      assert TagIds(tags, names).Ok? <==> TagIds(tags, pre).Ok? && ValidateTagName(name).Ok?;
    }
  }

  /** On success every name is keyed to the row storing its stored name, and tag names stay unique. */
  lemma {:induction false} TagIdsKeyed(tags: seq<string>, names: seq<string>)
    requires DistinctNames(tags)
    ensures TagIds(tags, names).Ok? ==> KeyedBy(tags, names, TagIds(tags, names).value, StoredName)
    decreases |names|
  {
    if names == [] {
      assert tags[..|tags|] == tags;
    } else {
      var pre := names[..|names| - 1];
      var name := names[|names| - 1];
      assert names == pre + [name];
      TagIdsKeyed(tags, pre);
      if TagIds(tags, pre).Ok? && ValidateTagName(name).Ok? {
        WithTagKeeps(tags, pre, TagIds(tags, pre).value, name, StoredName);
      }
    }
  }

  function SizeColumn(size: Option<nat>): Option<int>
  {
    if size.Some? then Some(size.value) else None
  }

  /** The entity loop of `_save_tags`: each entity's row id, a row being added for an entity without one. */
  function EntityIds(t: Tables, es: seq<MediaEntity>): (r: Result<(Tables, seq<nat>)>)
    requires WellFormed(t)
    ensures r.Ok? ==> WellFormed(r.value.0) && |r.value.1| == |es|
    decreases |es|
  {
    if es == [] then Ok((t, []))
    else
      var e := es[|es| - 1];
      match EntityIds(t, es[..|es| - 1])
      case Err(err) => Err(err)
      case Ok(acc) => WithEntityId(acc, e)
  }

  /** One entity of the loop: its row is looked up, or added, and its id appended. */
  function WithEntityId(acc: (Tables, seq<nat>), e: MediaEntity): (r: Result<(Tables, seq<nat>)>)
    requires WellFormed(acc.0)
    ensures r.Ok? ==> WellFormed(r.value.0) && |r.value.1| == |acc.1| + 1
  {
    match FindOrAddEntity(acc.0, e.path, e.entityType.Value(), e.name, SizeColumn(e.fileSize), 1, false, false)
    case Err(err) => Err(err)
    case Ok(added) => Ok((added.0, acc.1 + [added.1 + 1]))
  }

  /** The entity loop succeeds when no entity name is blank. */
  lemma {:induction false} EntityIdsOk(t: Tables, es: seq<MediaEntity>)
    requires WellFormed(t)
    requires forall i :: 0 <= i < |es| ==> !IsBlank(es[i].name)
    ensures EntityIds(t, es).Ok?
    decreases |es|
  {
    if es != [] {
      var pre := es[..|es| - 1];
      var e := es[|es| - 1];
      assert forall i :: 0 <= i < |pre| ==> pre[i] == es[i];
      EntityIdsOk(t, pre);
      assert ValidateEntityType(e.entityType.Value()).Ok?;
    }
  }

  /** Entity rows extend `rows`, and each entity's lookup finds the row whose id was collected. */
  predicate FoundAll(rows: seq<EntityRow>, es: seq<MediaEntity>, acc: (Tables, seq<nat>))
  {
    |rows| <= |acc.0.entities| && acc.0.entities[..|rows|] == rows && |acc.1| == |es| &&
    forall i :: 0 <= i < |es| ==>
      acc.1[i] >= 1 && FindEntity(acc.0.entities, es[i].path, es[i].entityType.Value()) == Some(acc.1[i] - 1)
  }

  lemma FoundAllStep(rows: seq<EntityRow>, es: seq<MediaEntity>, acc: (Tables, seq<nat>), added: (Tables, nat))
    requires es != [] && FoundAll(rows, es[..|es| - 1], acc)
    requires |acc.0.entities| <= |added.0.entities| <= |acc.0.entities| + 1
    requires added.0.entities[..|acc.0.entities|] == acc.0.entities
    requires FindEntity(added.0.entities, es[|es| - 1].path, es[|es| - 1].entityType.Value()) == Some(added.1)
    ensures FoundAll(rows, es, (added.0, acc.1 + [added.1 + 1]))
  {
    var pre := es[..|es| - 1];
    EntityRowsKept(acc.0.entities, added.0.entities, pre);
    assert added.0.entities[..|rows|] == acc.0.entities[..|rows|];
    assert forall i :: 0 <= i < |pre| ==> pre[i] == es[i];
  }

  /** The last entity's lookup keeps `FoundAll` when it succeeds. */
  lemma WithEntityIdFound(rows: seq<EntityRow>, es: seq<MediaEntity>, acc: (Tables, seq<nat>))
    requires es != [] && WellFormed(acc.0) && FoundAll(rows, es[..|es| - 1], acc)
    ensures WithEntityId(acc, es[|es| - 1]).Ok? ==> FoundAll(rows, es, WithEntityId(acc, es[|es| - 1]).value)
  {
    var e := es[|es| - 1];
    var fa := FindOrAddEntity(acc.0, e.path, e.entityType.Value(), e.name, SizeColumn(e.fileSize), 1, false, false);
    if fa.Ok? {
      FoundAllStep(rows, es, acc, fa.value);
    }
  }

  /** On success the rows only grow and every entity is found at its collected id. */
  lemma {:induction false} EntityIdsFound(t: Tables, es: seq<MediaEntity>)
    requires WellFormed(t)
    ensures EntityIds(t, es).Ok? ==> FoundAll(t.entities, es, EntityIds(t, es).value)
    decreases |es|
  {
    if es == [] {
      assert t.entities[..|t.entities|] == t.entities;
    } else {
      var pre := es[..|es| - 1];
      EntityIdsFound(t, pre);
      if EntityIds(t, pre).Ok? {
        WithEntityIdFound(t.entities, es, EntityIds(t, pre).value);
      }
    }
  }

  lemma EntityRowsKept(rows: seq<EntityRow>, rows': seq<EntityRow>, es: seq<MediaEntity>)
    requires |rows| <= |rows'| <= |rows| + 1 && rows'[..|rows|] == rows
    ensures forall i :: 0 <= i < |es| && FindEntity(rows, es[i].path, es[i].entityType.Value()).Some? ==>
      FindEntity(rows', es[i].path, es[i].entityType.Value()) == FindEntity(rows, es[i].path, es[i].entityType.Value())
  {
    if |rows'| == |rows| {
      assert rows' == rows;
    } else {
      assert rows' == rows + [rows'[|rows|]];
      forall i | 0 <= i < |es| && FindEntity(rows, es[i].path, es[i].entityType.Value()).Some?
        ensures FindEntity(rows', es[i].path, es[i].entityType.Value()) == FindEntity(rows, es[i].path, es[i].entityType.Value())
      {
        FindEntityKept(rows, rows'[|rows|], es[i].path, es[i].entityType.Value());
      }
    }
  }

  /** The link rows after the delete and the insert: other entities keep their links, these get exactly `tids`. */
  function Relinked(links: set<(nat, nat)>, eids: seq<nat>, tids: set<nat>): set<(nat, nat)>
  {
    (set l | l in links && l.0 !in eids) + (set e, t | e in eids && t in tids :: (e, t))
  }

  /** The relationship rows `_save_tags` inserts: every entity with every tag, entity by entity. */
  function CrossPairs(eids: seq<nat>, tids: seq<nat>): seq<(nat, nat)>
    decreases |eids|
  {
    if eids == [] then []
    else CrossPairs(eids[..|eids| - 1], tids) + Row(eids[|eids| - 1], tids)
  }

  predicate NoDuplicates<T(==)>(s: seq<T>)
  {
    forall i, j :: 0 <= i < j < |s| ==> s[i] != s[j]
  }

  /** The pairs one entity contributes: that entity with every tag, in order. */
  function Row(e: nat, tids: seq<nat>): seq<(nat, nat)>
  {
    seq(|tids|, j requires 0 <= j < |tids| => (e, tids[j]))
  }

  /** A pair is inserted exactly when its entity and its tag are among those saved. */
  lemma {:induction false} CrossPairsHas(eids: seq<nat>, tids: seq<nat>, x: (nat, nat))
    ensures x in CrossPairs(eids, tids) <==> x.0 in eids && x.1 in tids
    decreases |eids|
  {
    if eids != [] {
      var pre, last := eids[..|eids| - 1], eids[|eids| - 1];
      assert eids == pre + [last];
      CrossPairsHas(pre, tids, x);
      assert x in Row(last, tids) <==> x.0 == last && x.1 in tids by {
        if x.0 == last && x.1 in tids {
          var j :| 0 <= j < |tids| && tids[j] == x.1;
          assert Row(last, tids)[j] == x;
        }
      }
    }
  }

  /** A sequence joined from two parts repeats nothing exactly when neither part does and they share nothing. */
  lemma NoDuplicatesConcat<T>(a: seq<T>, b: seq<T>)
    ensures NoDuplicates(a + b) <==> NoDuplicates(a) && NoDuplicates(b) && forall x :: x in a ==> x !in b
  {
    if NoDuplicates(a + b) {
      forall i, j | 0 <= i < j < |a| ensures a[i] != a[j] {
        assert (a + b)[i] == a[i] && (a + b)[j] == a[j];
      }
      forall i, j | 0 <= i < j < |b| ensures b[i] != b[j] {
        assert (a + b)[|a| + i] == b[i] && (a + b)[|a| + j] == b[j];
      }
      forall i, j | 0 <= i < |a| && 0 <= j < |b| ensures a[i] != b[j] {
        assert (a + b)[i] == a[i] && (a + b)[|a| + j] == b[j];
      }
    }
    if NoDuplicates(a) && NoDuplicates(b) && forall x :: x in a ==> x !in b {
      forall i, j | 0 <= i < j < |a + b| ensures (a + b)[i] != (a + b)[j] {
        if j < |a| {
        } else if i < |a| {
          assert (a + b)[i] in a && (a + b)[j] == b[j - |a|];
        } else {
          assert (a + b)[i] == b[i - |a|] && (a + b)[j] == b[j - |a|];
        }
      }
    }
  }

  /** One entity's pairs repeat nothing exactly when its tags repeat nothing. */
  lemma RowUnique(e: nat, tids: seq<nat>)
    ensures NoDuplicates(Row(e, tids)) <==> NoDuplicates(tids)
  {
    assert forall j :: 0 <= j < |tids| ==> Row(e, tids)[j] == (e, tids[j]);
  }

  /** A later entity's pairs meet the earlier ones' exactly when it is among the earlier entities and has a tag. */
  lemma RowApart(pre: seq<nat>, last: nat, tids: seq<nat>)
    ensures (forall x :: x in CrossPairs(pre, tids) ==> x !in Row(last, tids)) <==> tids == [] || last !in pre
  {
    if tids != [] && last in pre {
      CrossPairsHas(pre, tids, (last, tids[0]));
      assert Row(last, tids)[0] == (last, tids[0]);
    }
    forall x | x in CrossPairs(pre, tids) && x in Row(last, tids) ensures tids != [] && last in pre {
      CrossPairsHas(pre, tids, x);
    }
  }

  /** Appending one element repeats nothing exactly when it is new. */
  lemma SnocUnique(pre: seq<nat>, last: nat)
    ensures NoDuplicates(pre + [last]) <==> NoDuplicates(pre) && last !in pre
  {
    NoDuplicatesConcat(pre, [last]);
  }

  /**
   * The insert loop adds no link twice exactly when there is no entity or
   * no tag, or the entity ids and the tag ids each repeat nothing.
   */
  lemma {:induction false} CrossPairsUnique(eids: seq<nat>, tids: seq<nat>)
    ensures NoDuplicates(CrossPairs(eids, tids)) <==>
              eids == [] || tids == [] || (NoDuplicates(eids) && NoDuplicates(tids))
    decreases |eids|
  {
    if eids != [] {
      var pre, last := eids[..|eids| - 1], eids[|eids| - 1];
      assert eids == pre + [last];
      CrossPairsUnique(pre, tids);
      NoDuplicatesConcat(CrossPairs(pre, tids), Row(last, tids));
      RowUnique(last, tids);
      RowApart(pre, last, tids);
      SnocUnique(pre, last);
    }
  }

  /** `_save_tags` as written, on the tags in the order the set hands them out. */
  function SaveTagsAsWritten(db: TagTables, es: seq<MediaEntity>, names: seq<string>): (r: Result<TagTables>)
    requires TagTablesOk(db)
  {
    TagIdsAsWrittenShape(db.tags, names);
    match TagIdsAsWritten(db.tags, names)
    case Err(e) => Err(e)
    case Ok(tagged) =>
      match EntityIds(db.tables, es)
      case Err(e) => Err(e)
      case Ok(found) =>
        if !NoDuplicates(CrossPairs(found.1, TagIdSeq(tagged.1, names))) then Err(UniqueTagLink)
        else Ok(TagTables(found.0, tagged.0, Relinked(db.links, found.1, set n | n in names :: tagged.1[n])))
  }

  /**
   * `_save_tags` with the tag lookup made under the stored name; inserting
   * the same (entity, tag) link twice still breaks the unique constraint.
   */
  function SaveTags(db: TagTables, es: seq<MediaEntity>, names: seq<string>): (r: Result<TagTables>)
    requires TagTablesOk(db)
  {
    match TagIds(db.tags, names)
    case Err(e) => Err(e)
    case Ok(tagged) =>
      match EntityIds(db.tables, es)
      case Err(e) => Err(e)
      case Ok(found) =>
        if !NoDuplicates(CrossPairs(found.1, TagIdSeq(tagged.1, names))) then Err(UniqueTagLink)
        else Ok(TagTables(found.0, tagged.0, Relinked(db.links, found.1, TagIdSet(tagged.1, names))))
  }

  /** The tag ids in the order the insert loop walks the names. */
  function TagIdSeq(ids: map<string, nat>, names: seq<string>): (r: seq<nat>)
    ensures |r| == |names|
  {
    seq(|names|, j requires 0 <= j < |names| => if names[j] in ids then ids[names[j]] else 0)
  }

  /** The ids `tag_objects` holds for the names. */
  function TagIdSet(ids: map<string, nat>, names: seq<string>): set<nat>
  {
    set n | n in names && n in ids :: ids[n]
  }

  /** The pieces a successful save is made of. */
  lemma SaveTagsParts(db: TagTables, es: seq<MediaEntity>, names: seq<string>)
    requires TagTablesOk(db) && SaveTags(db, es, names).Ok?
    ensures TagIds(db.tags, names).Ok? && EntityIds(db.tables, es).Ok?
    ensures KeyedBy(db.tags, names, TagIds(db.tags, names).value, StoredName)
    ensures FoundAll(db.tables.entities, es, EntityIds(db.tables, es).value)
    ensures SaveTags(db, es, names).value ==
      TagTables(EntityIds(db.tables, es).value.0, TagIds(db.tags, names).value.0,
                Relinked(db.links, EntityIds(db.tables, es).value.1, TagIdSet(TagIds(db.tags, names).value.1, names)))
  {
    TagIdsKeyed(db.tags, names);
    EntityIdsFound(db.tables, es);
  }

  /** No two tag names share a stored form (`stored` is the name the tag row is kept under). */
  predicate DistinctStored(names: seq<string>, stored: string -> string)
  {
    forall i, j :: 0 <= i < j < |names| ==> stored(names[i]) != stored(names[j])
  }

  /** No two of the dialog's tags share a stored form. */
  predicate StoredApart(tags: set<string>)
  {
    forall a, b :: a in tags && b in tags && a != b ==> StoredName(a) != StoredName(b)
  }

  /** A listing that holds each element once holds no element twice. */
  lemma ListedOnce(names: seq<string>, tags: set<string>)
    requires multiset(names) == multiset(tags)
    ensures NoDuplicates(names)
  {
    forall i, j | 0 <= i < j < |names| ensures names[i] != names[j] {
      var x := names[j];
      assert names == names[..j] + [x] + names[j + 1..];
      assert names[..j][i] == names[i];
      assert multiset(names)[x] == multiset(names[..j])[x] + 1 + multiset(names[j + 1..])[x];
      assert multiset(tags)[x] <= 1;
    }
  }

  /** A listing of the dialog's tags holds exactly those tags, and is empty exactly when they are. */
  lemma ListedMembers(names: seq<string>, tags: set<string>)
    requires multiset(names) == multiset(tags)
    ensures names == [] <==> tags == {}
    ensures forall n :: n in names <==> n in tags
  {
    assert |names| == |multiset(names)| == |multiset(tags)| == |tags|;
    forall n ensures n in names <==> n in tags {
      assert n in names <==> n in multiset(names);
    }
  }

  /**
   * For a listing of the dialog's tags, the names listed repeat no stored
   * form exactly when the tags themselves share none.
   */
  lemma ListedApart(names: seq<string>, tags: set<string>)
    requires NoDuplicates(names) && forall n :: n in names <==> n in tags
    ensures DistinctStored(names, StoredName) <==> StoredApart(tags)
  {
    if DistinctStored(names, StoredName) {
      forall a, b | a in tags && b in tags && a != b ensures StoredName(a) != StoredName(b) {
        var i :| 0 <= i < |names| && names[i] == a;
        var j :| 0 <= j < |names| && names[j] == b;
        if i > j { i, j := j, i; }
      }
    }
  }

  /**
   * Saving a listing of the dialog's tags: it fails on a blank tag; with no
   * blank tag and no blank entity name, it succeeds exactly when there is no
   * entity or no tag, or no two tags share a stored form and no entity is
   * selected twice.
   */
  lemma SaveListedOk(db: TagTables, es: seq<MediaEntity>, names: seq<string>, tags: set<string>)
    requires TagTablesOk(db) && multiset(names) == multiset(tags)
    ensures (exists n :: n in tags && IsBlank(n)) ==> SaveTags(db, es, names).Err?
    ensures (forall n :: n in tags ==> !IsBlank(n)) && (forall i :: 0 <= i < |es| ==> !IsBlank(es[i].name)) ==>
              (SaveTags(db, es, names).Ok? <==> es == [] || tags == {} || (StoredApart(tags) && DistinctKeys(es)))
  {
    ListedMembers(names, tags);
    ListedOnce(names, tags);
    ListedApart(names, tags);
    SaveTagsOk(db, es, names);
  }

  /**
   * A successful save of a listing of the dialog's tags keeps the tables
   * consistent and links every entity to exactly the tags' stored forms.
   */
  lemma SaveListedLinks(db: TagTables, es: seq<MediaEntity>, names: seq<string>, tags: set<string>)
    requires TagTablesOk(db) && multiset(names) == multiset(tags) && SaveTags(db, es, names).Ok?
    ensures TagTablesOk(SaveTags(db, es, names).value)
    ensures var db' := SaveTags(db, es, names).value;
      forall i :: 0 <= i < |es| ==>
        EntityId(db', es[i]).Some? && LinkedNames(db', EntityId(db', es[i]).value) == set n | n in tags :: StoredName(n)
  {
    ListedMembers(names, tags);
    SaveTagsKeepsTables(db, es, names);
    SaveTagsLinks(db, es, names);
    assert StoredNames(names) == set n | n in tags :: StoredName(n);
  }

  /** No entity is selected twice (by path and type, the key its row is found by). */
  predicate DistinctKeys(es: seq<MediaEntity>)
  {
    forall i, j :: 0 <= i < j < |es| ==>
      es[i].path != es[j].path || es[i].entityType.Value() != es[j].entityType.Value()
  }

  /** Two names get the same tag id exactly when they share a stored form. */
  lemma TagIdsDistinct(tags: seq<string>, names: seq<string>, acc: (seq<string>, map<string, nat>),
                       stored: string -> string)
    requires KeyedBy(tags, names, acc, stored)
    ensures NoDuplicates(TagIdSeq(acc.1, names)) <==> DistinctStored(names, stored)
  {
    var ids := TagIdSeq(acc.1, names);
    forall i, j | 0 <= i < j < |names| ensures ids[i] == ids[j] <==> stored(names[i]) == stored(names[j]) {
      assert names[i] in acc.1 && names[j] in acc.1;
      var a, b := acc.1[names[i]], acc.1[names[j]];
      assert ids[i] == a && ids[j] == b;
    }
  }

  /** Two selected entities get the same row id exactly when they share path and type. */
  lemma EntityIdsDistinct(rows: seq<EntityRow>, es: seq<MediaEntity>, acc: (Tables, seq<nat>))
    requires FoundAll(rows, es, acc)
    ensures NoDuplicates(acc.1) <==> DistinctKeys(es)
  {
    forall i, j | 0 <= i < j < |es|
      ensures acc.1[i] == acc.1[j] <==>
                es[i].path == es[j].path && es[i].entityType.Value() == es[j].entityType.Value()
    {
      var ri := FindEntity(acc.0.entities, es[i].path, es[i].entityType.Value());
      var rj := FindEntity(acc.0.entities, es[j].path, es[j].entityType.Value());
      assert ri == Some(acc.1[i] - 1) && rj == Some(acc.1[j] - 1);
    }
  }

  /** Once both passes succeed, the save fails only on a link inserted twice. */
  lemma SaveTagsUnique(db: TagTables, es: seq<MediaEntity>, names: seq<string>)
    requires TagTablesOk(db) && TagIds(db.tags, names).Ok? && EntityIds(db.tables, es).Ok?
    ensures SaveTags(db, es, names).Ok? <==> es == [] || names == [] || (DistinctStored(names, StoredName) && DistinctKeys(es))
  {
    var tagged, found := TagIds(db.tags, names).value, EntityIds(db.tables, es).value;
    TagIdsKeyed(db.tags, names);
    EntityIdsFound(db.tables, es);
    TagIdsDistinct(db.tags, names, tagged, StoredName);
    EntityIdsDistinct(db.tables.entities, es, found);
    CrossPairsUnique(found.1, TagIdSeq(tagged.1, names));
  }

  /**
   * Saving fails on a blank tag name; when no tag name and no entity name
   * is blank, it succeeds exactly when there is no entity or no tag, or no
   * (entity, tag) link would be inserted twice: no two names share a stored
   * form and no entity is selected twice.
   */
  lemma SaveTagsOk(db: TagTables, es: seq<MediaEntity>, names: seq<string>)
    requires TagTablesOk(db)
    ensures SaveTags(db, es, names).Ok? ==> forall n :: n in names ==> !IsBlank(n)
    ensures (forall n :: n in names ==> !IsBlank(n)) && (forall i :: 0 <= i < |es| ==> !IsBlank(es[i].name)) ==>
              (SaveTags(db, es, names).Ok? <==>
               es == [] || names == [] || (DistinctStored(names, StoredName) && DistinctKeys(es)))
  {
    TagIdsOk(db.tags, names);
    if (forall n :: n in names ==> !IsBlank(n)) && (forall i :: 0 <= i < |es| ==> !IsBlank(es[i].name)) {
      EntityIdsOk(db.tables, es);
      SaveTagsUnique(db, es, names);
    }
  }

  /** Relinking keeps links pointing at existing rows when the rows only grow. */
  lemma RelinkedOk(db: TagTables, es: seq<MediaEntity>, names: seq<string>,
                   tagged: (seq<string>, map<string, nat>), found: (Tables, seq<nat>))
    requires TagTablesOk(db) && WellFormed(found.0)
    requires KeyedBy(db.tags, names, tagged, StoredName) && FoundAll(db.tables.entities, es, found)
    ensures TagTablesOk(TagTables(found.0, tagged.0, Relinked(db.links, found.1, TagIdSet(tagged.1, names))))
  {
    var links := Relinked(db.links, found.1, TagIdSet(tagged.1, names));
    forall l | l in links
      ensures 1 <= l.0 <= |found.0.entities| && 1 <= l.1 <= |tagged.0|
    {
      if l !in db.links {
        var i :| 0 <= i < |found.1| && found.1[i] == l.0;
        var n :| n in names && n in tagged.1 && tagged.1[n] == l.1;
      }
    }
  }

  /** A save keeps the tables consistent, and only adds entity and tag rows. */
  lemma SaveTagsKeepsTables(db: TagTables, es: seq<MediaEntity>, names: seq<string>)
    requires TagTablesOk(db) && SaveTags(db, es, names).Ok?
    ensures var db' := SaveTags(db, es, names).value;
      TagTablesOk(db') &&
      |db.tags| <= |db'.tags| && db'.tags[..|db.tags|] == db.tags &&
      |db.tables.entities| <= |db'.tables.entities| && db'.tables.entities[..|db.tables.entities|] == db.tables.entities
  {
    SaveTagsParts(db, es, names);
    RelinkedOk(db, es, names, TagIds(db.tags, names).value, EntityIds(db.tables, es).value);
  }

  /** Relinking gives the entity `id` among the edited ones exactly the names `stored` keys the rows by. */
  lemma RelinkedEdited(tags: seq<string>, links: set<(nat, nat)>, names: seq<string>, eids: seq<nat>,
                       tagged: (seq<string>, map<string, nat>), stored: string -> string, id: nat)
    requires KeyedBy(tags, names, tagged, stored)
    requires id in eids
    ensures LinkedNames(TagTables(EmptyTables, tagged.0, Relinked(links, eids, TagIdSet(tagged.1, names))), id)
            == Image(names, stored)
  {
    var db' := TagTables(EmptyTables, tagged.0, Relinked(links, eids, TagIdSet(tagged.1, names)));
    forall t | t in LinkedNames(db', id)
      ensures t in Image(names, stored)
    {
      var k :| 0 <= k < |db'.tags| && (id, k + 1) in db'.links && db'.tags[k] == t;
      var n :| n in names && n in tagged.1 && tagged.1[n] == k + 1;
      assert t == stored(n);
    }
    forall t | t in Image(names, stored)
      ensures t in LinkedNames(db', id)
    {
      var n :| n in names && stored(n) == t;
      var k := tagged.1[n] - 1;
      assert (id, k + 1) in db'.links;
    }
  }

  /** Names are linked by the tag and link tables only. */
  lemma LinkedNamesIgnoreEntities(db: TagTables, t: Tables, id: nat)
    ensures LinkedNames(db, id) == LinkedNames(TagTables(t, db.tags, db.links), id)
  {
  }

  /** After a save, each edited entity has a row whose tags are exactly the stored names of the dialog's tags. */
  lemma SaveTagsLinks(db: TagTables, es: seq<MediaEntity>, names: seq<string>)
    requires TagTablesOk(db) && SaveTags(db, es, names).Ok?
    ensures var db' := SaveTags(db, es, names).value;
      forall i :: 0 <= i < |es| ==>
        EntityId(db', es[i]).Some? && LinkedNames(db', EntityId(db', es[i]).value) == StoredNames(names)
  {
    forall i | 0 <= i < |es|
      ensures var db' := SaveTags(db, es, names).value;
        EntityId(db', es[i]).Some? && LinkedNames(db', EntityId(db', es[i]).value) == StoredNames(names)
    {
      SaveTagsLinksAt(db, es, names, i);
    }
  }

  lemma SaveTagsLinksAt(db: TagTables, es: seq<MediaEntity>, names: seq<string>, i: nat)
    requires TagTablesOk(db) && SaveTags(db, es, names).Ok? && i < |es|
    ensures var db' := SaveTags(db, es, names).value;
      EntityId(db', es[i]) == Some(EntityIds(db.tables, es).value.1[i]) &&
      LinkedNames(db', EntityIds(db.tables, es).value.1[i]) == StoredNames(names)
  {
    SaveTagsParts(db, es, names);
    RelinkedAt(db, es, names, TagIds(db.tags, names).value, EntityIds(db.tables, es).value, i);
  }

  /** The i-th edited entity is found at its collected id and linked to exactly the stored names. */
  lemma RelinkedAt(db: TagTables, es: seq<MediaEntity>, names: seq<string>,
                   tagged: (seq<string>, map<string, nat>), found: (Tables, seq<nat>), i: nat)
    requires KeyedBy(db.tags, names, tagged, StoredName) && FoundAll(db.tables.entities, es, found) && i < |es|
    ensures var db' := TagTables(found.0, tagged.0, Relinked(db.links, found.1, TagIdSet(tagged.1, names)));
      EntityId(db', es[i]) == Some(found.1[i]) && LinkedNames(db', found.1[i]) == StoredNames(names)
  {
    var db' := TagTables(found.0, tagged.0, Relinked(db.links, found.1, TagIdSet(tagged.1, names)));
    assert found.1[i] in found.1;
    RelinkedEdited(db.tags, db.links, names, found.1, tagged, StoredName, found.1[i]);
    LinkedNamesIgnoreEntities(db', EmptyTables, found.1[i]);
  }

  /** Relinking leaves the tags of every other entity as they were. */
  lemma RelinkedOthers(db: TagTables, es: seq<MediaEntity>, names: seq<string>,
                       tagged: (seq<string>, map<string, nat>), found: (Tables, seq<nat>), id: nat)
    requires TagTablesOk(db)
    requires KeyedBy(db.tags, names, tagged, StoredName) && FoundAll(db.tables.entities, es, found)
    requires id !in found.1
    ensures LinkedNames(TagTables(found.0, tagged.0, Relinked(db.links, found.1, TagIdSet(tagged.1, names))), id)
            == LinkedNames(db, id)
  {
    var db' := TagTables(found.0, tagged.0, Relinked(db.links, found.1, TagIdSet(tagged.1, names)));
    forall k | 0 <= k < |db.tags|
      ensures db'.tags[k] == db.tags[k]
    {
      assert db'.tags[..|db.tags|][k] == db.tags[k];
    }
    forall t | t in LinkedNames(db', id)
      ensures t in LinkedNames(db, id)
    {
      var k :| 0 <= k < |db'.tags| && (id, k + 1) in db'.links && db'.tags[k] == t;
      assert (id, k + 1) in db.links;
    }
  }

  /** A save leaves the tags of every entity it does not edit as they were. */
  lemma SaveTagsKeepsOthers(db: TagTables, es: seq<MediaEntity>, names: seq<string>, id: nat)
    requires TagTablesOk(db) && SaveTags(db, es, names).Ok?
    requires forall i :: 0 <= i < |es| ==> EntityId(SaveTags(db, es, names).value, es[i]) != Some(id)
    ensures LinkedNames(SaveTags(db, es, names).value, id) == LinkedNames(db, id)
  {
    SaveTagsParts(db, es, names);
    var tagged := TagIds(db.tags, names).value;
    var found := EntityIds(db.tables, es).value;
    assert id !in found.1 by {
      forall i | 0 <= i < |found.1|
        ensures found.1[i] != id
      {
        RelinkedAt(db, es, names, tagged, found, i);
      }
    }
    RelinkedOthers(db, es, names, tagged, found, id);
  }

  /** The store of the mixed-case example: no entity rows, one tag "a", no links. */
  const CaseDb := TagTables(EmptyTables, ["a"], {})
  const CaseEntity := MediaEntity("/shots/a.mov", Video, "a.mov", ["/shots/a.mov"], None, None, None)

  lemma StoredNameOfUpperA()
    ensures !IsBlank("A") && StoredName("A") == "a"
  {
    assert !IsWhitespace("A"[0]);
    assert Strip("A") == "A";
  }

  /**
   * A tag "a" exists and the dialog holds "A" (typed names are stripped but
   * not lower-cased): the exact-name lookup misses, the created row is
   * validated to "a", and the unique constraint aborts the save.
   */
  lemma MixedCaseTagBreaksSave()
    ensures SaveTagsAsWritten(CaseDb, [CaseEntity], ["A"]) == Err(UniqueTagName)
  {
    StoredNameOfUpperA();
    assert ["A"][..0] == [];
    assert TagIdsAsWritten(CaseDb.tags, ["A"]) == Err(UniqueTagName);
  }

  /** The corrected save of the same input links the entity to the existing tag "a" and creates no tag. */
  lemma MixedCaseTagSaved()
    ensures SaveTags(CaseDb, [CaseEntity], ["A"]).Ok?
    ensures var db' := SaveTags(CaseDb, [CaseEntity], ["A"]).value;
      db'.tags == ["a"] && EntityId(db', CaseEntity).Some? && LinkedNames(db', EntityId(db', CaseEntity).value) == {"a"}
  {
    CaseSavedTags();
    CaseSavedLinks();
  }

  /** The example's save keeps the single tag row "a". */
  lemma CaseSavedTags()
    ensures SaveTags(CaseDb, [CaseEntity], ["A"]).Ok? && SaveTags(CaseDb, [CaseEntity], ["A"]).value.tags == ["a"]
  {
    CaseSaveOk();
    CaseTagIdsValue();
  }

  /** The example's entity gets a row linked to exactly the tag "a". */
  lemma CaseSavedLinks()
    ensures SaveTags(CaseDb, [CaseEntity], ["A"]).Ok?
    ensures var db' := SaveTags(CaseDb, [CaseEntity], ["A"]).value;
      EntityId(db', CaseEntity).Some? && LinkedNames(db', EntityId(db', CaseEntity).value) == {"a"}
  {
    CaseSaveOk();
    SaveTagsLinksAt(CaseDb, [CaseEntity], ["A"], 0);
    CaseStoredNames();
  }

  /** The example's save succeeds. */
  lemma CaseSaveOk()
    ensures SaveTags(CaseDb, [CaseEntity], ["A"]).Ok?
  {
    CaseNotBlank();
    SaveTagsOk(CaseDb, [CaseEntity], ["A"]);
  }

  /** Neither the example's tag name nor its entity name is blank. */
  lemma CaseNotBlank()
    ensures forall n :: n in ["A"] ==> !IsBlank(n)
    ensures forall i :: 0 <= i < |[CaseEntity]| ==> !IsBlank([CaseEntity][i].name)
  {
    StoredNameOfUpperA();
    assert !IsBlank(CaseEntity.name) by {
      assert !IsWhitespace(CaseEntity.name[0]);
    }
  }

  /** "A" is stored as "a". */
  lemma CaseStoredNames()
    ensures StoredNames(["A"]) == {"a"}
  {
    StoredNameOfUpperA();
    assert StoredNames(["A"]) == {StoredName("A")};
  }

  /** The corrected tag loop keys "A" to the existing row 1. */
  lemma CaseTagIdsValue()
    ensures TagIds(["a"], ["A"]) == Ok((["a"], map["A" := 1]))
  {
    StoredNameOfUpperA();
    assert ["A"][..0] == [];
  }

  /** Which input the dialog may still be given: the two shapes `__init__` accepts. */
  datatype Target = One(entity: MediaEntity) | Many(entities: seq<MediaEntity>)

  /** The dialog's state. */
  class Dialog {
    var entities: seq<MediaEntity>
    var isMulti: bool
    var currentTags: set<string>
    var tagsList: seq<string>
    var input: string
    var accepted: bool

    /** A single-entity dialog edits exactly one entity. */
    predicate Valid()
      reads this
    {
      isMulti || |entities| == 1
    }

    /**
     * `__init__`: a single entity is wrapped in a list and marked single;
     * then the entity tags are loaded, through a tag session that may raise
     * (`raised`), in which case no tag is shown.
     */
    constructor(target: Target, db: TagTables, raised: Option<string>)
      ensures target.One? ==> entities == [target.entity] && !isMulti
      ensures target.Many? ==> entities == target.entities && isMulti
      ensures Valid()
      ensures raised.None? ==> currentTags == LoadedTags(db, entities)
      ensures raised.Some? ==> currentTags == {} && tagsList == []
      ensures Shows(tagsList, currentTags) && input == "" && !accepted
    {
      if target.Many? {
        entities, isMulti := target.entities, true;
      } else {
        entities, isMulti := [target.entity], false;
      }
      currentTags, tagsList, input, accepted := {}, [], "", false;
      new;
      LoadEntityTags(db, raised);
    }

    /**
     * `_load_entity_tags`: the tags read through a `for_tags` session; when
     * the session raises (a timed-out tag pool, a locked database) the error
     * is logged and the tags and the list stay as they were.
     */
    method LoadEntityTags(db: TagTables, raised: Option<string>)
      requires Valid() && currentTags == {}
      modifies this`currentTags, this`tagsList
      ensures raised.Some? ==> currentTags == old(currentTags) && tagsList == old(tagsList)
      ensures raised.None? ==> currentTags == LoadedTags(db, entities) && Shows(tagsList, currentTags)
    {
      if raised.Some? {
        return;
      }
      if isMulti {
        var sets: seq<set<string>> := [];
        var i := 0;
        while i < |entities|
          invariant 0 <= i <= |entities|
          invariant sets == FoundTagSets(db, entities[..i])
        {
          assert entities[..i + 1][..i] == entities[..i];
          var id := EntityId(db, entities[i]);
          if id.Some? {
            sets := sets + [LinkedNames(db, id.value)];
          }
          i := i + 1;
        }
        assert entities[..i] == entities;
        currentTags := if sets != [] then Common(sets) else {};
      } else {
        SingleLikeMulti(db, entities[0]);
        assert entities == [entities[0]];
        var id := EntityId(db, entities[0]);
        if id.Some? {
          currentTags := LinkedNames(db, id.value);
        }
      }
      UpdateTagsList();
    }

    /** `_update_tags_list`: the names, sorted. */
    method UpdateTagsList()
      modifies this`tagsList
      ensures Shows(tagsList, currentTags)
    {
      var xs := ListTags();
      tagsList := Sorting.SortStrings(xs);
    }

    /** `list(self.current_tags)`: each name once, in the order the set hands them out. */
    method ListTags() returns (xs: seq<string>)
      ensures multiset(xs) == multiset(currentTags)
    {
      var rest := currentTags;
      xs := [];
      while rest != {}
        invariant multiset(xs) + multiset(rest) == multiset(currentTags)
        decreases |rest|
      {
        var t :| t in rest;
        xs := xs + [t];
        rest := rest - {t};
      }
    }

    /**
     * `_save_tags`: the dialog's names are written for every entity; on
     * success the names are emitted and the dialog accepted, on failure
     * (the error box) the dialog stays open.  `raised` is the error the
     * connection layer raises inside the `for_tags` session, if any (a
     * timed-out tag pool, a locked database, a failing commit): the
     * transaction is rolled back and reported like any other failure.
     */
    method Save(db: TagTables, raised: Option<string>) returns (r: Result<TagTables>, emitted: Option<seq<string>>)
      requires TagTablesOk(db)
      modifies this`accepted
      ensures raised.Some? ==> r == Err(raised.value) && emitted.None? && accepted == old(accepted)
      ensures emitted.Some? <==> r.Ok?
      ensures emitted.Some? ==>
        multiset(emitted.value) == multiset(currentTags) && r == SaveTags(db, entities, emitted.value)
      ensures accepted == (old(accepted) || r.Ok?)
      ensures (exists n :: n in currentTags && IsBlank(n)) ==> r.Err?
      ensures r.Ok? ==> TagTablesOk(r.value)
      ensures r.Ok? ==> forall i :: 0 <= i < |entities| ==>
        (EntityId(r.value, entities[i]).Some? &&
         LinkedNames(r.value, EntityId(r.value, entities[i]).value) == set n | n in currentTags :: StoredName(n))
      ensures raised.None? && (forall n :: n in currentTags ==> !IsBlank(n)) &&
              (forall i :: 0 <= i < |entities| ==> !IsBlank(entities[i].name)) ==>
        (r.Ok? <==> entities == [] || currentTags == {} || (StoredApart(currentTags) && DistinctKeys(entities)))
    {
      var names := ListTags();
      r := SaveTags(db, entities, names);
      SaveListedOk(db, entities, names, currentTags);
      if raised.Some? {
        r := Err(raised.value);
      }
      if r.Ok? {
        SaveListedLinks(db, entities, names, currentTags);
        emitted := Some(names);
        accepted := true;
      } else {
        emitted := None;
      }
    }

    /**
     * `_add_tag`: the typed text without surrounding whitespace; nothing for
     * a blank input, a notice when the name is already there, otherwise the
     * name is added and the input cleared.
     */
    method AddTag() returns (notice: bool)
      requires Shows(tagsList, currentTags)
      modifies this`currentTags, this`tagsList, this`input
      ensures Shows(tagsList, currentTags)
      ensures IsBlank(old(input)) ==>
        !notice && currentTags == old(currentTags) && input == old(input)
      ensures !IsBlank(old(input)) && Strip(old(input)) in old(currentTags) ==>
        notice && currentTags == old(currentTags) && input == old(input)
      ensures !IsBlank(old(input)) && Strip(old(input)) !in old(currentTags) ==>
        !notice && currentTags == old(currentTags) + {Strip(old(input))} && input == ""
    {
      StripEmptyIffBlank(input);
      var name := Strip(input);
      notice := false;
      if name == "" {
        return;
      }
      if name in currentTags {
        notice := true;
        return;
      }
      currentTags := currentTags + {name};
      UpdateTagsList();
      input := "";
    }

    /** `_remove_selected_tag`: the selected item's name is discarded; no selection, no change. */
    method RemoveSelectedTag(selected: Option<string>)
      requires Shows(tagsList, currentTags)
      modifies this`currentTags, this`tagsList
      ensures Shows(tagsList, currentTags)
      ensures selected.Some? ==> currentTags == old(currentTags) - {selected.value}
      ensures selected.None? ==> currentTags == old(currentTags)
    {
      if selected.Some? {
        currentTags := currentTags - {selected.value};
        UpdateTagsList();
      }
    }
  }

  /** A name the dialog adds has no surrounding whitespace and is not blank, so adding it again is refused. */
  lemma AddedNameIsStripped(input: string)
    requires !IsBlank(input)
    ensures Strip(input) != "" && Strip(Strip(input)) == Strip(input)
  {
    StripEmptyIffBlank(input);
    StripIdempotent(input);
  }
}
