/** Aggregate elements and the cached aggregates built from them (`src/aleph/handlers/content/aggregate.py` and
    `src/aleph/db/accessors/aggregates.py`). */
module Aggregates {
  import opened Wrappers
  import opened Records

  datatype AggKey = AggKey(key: string, owner: Address)

  datatype Element = Element(id: AggKey, fields: map<string, Value>, created: Time)

  datatype AggRow = AggRow(content: map<string, Value>, created: Time, lastRevision: Hash, dirty: bool)

  type Elements = map<Hash, Element>

  datatype AggTables = AggTables(elements: Elements, rows: map<AggKey, AggRow>)

  /** The one owner whose aggregates are not maintained on arrival. */
  const SKIPPED_OWNER: Address := "0x51A58800b26AA1451aaA803d1746687cB88E0501"

  function Of(elements: Elements, id: AggKey): set<Hash> {
    set h | h in elements && elements[h].id == id
  }

  function Newest(elements: Elements, hs: set<Hash>): set<Hash> {
    set h | h in hs && h in elements && forall k :: k in hs && k in elements ==>
        elements[k].created <= elements[h].created
  }

  // ----- merging

  lemma {:induction false} NewestExists(elements: Elements, hs: set<Hash>)
    requires hs != {} && hs <= elements.Keys
    ensures Newest(elements, hs) != {}
  {
    var x :| x in hs;
    var rest := hs - {x};
    if rest == {} {
      assert hs == {x};
      assert x in Newest(elements, hs);
    } else {
      NewestExists(elements, rest);
      var a :| a in Newest(elements, rest);
      var best := if elements[a].created >= elements[x].created then a else x;
      assert best in Newest(elements, hs);
    }
  }

  /** The right-biased merge of the elements in time order, ties in the order the database gives. */
  function MergeByTime(elements: Elements, hs: set<Hash>, first: RowChoice): map<string, Value>
    requires Chooses(first) && hs <= elements.Keys
    decreases |hs|
  {
    if hs == {} then
      map[]
    else
      NewestExists(elements, hs);
      var x := first(Newest(elements, hs));
      MergeByTime(elements, hs - {x}, first) + elements[x].fields
  }

  /** `content` holds every field of the elements, each with the value of a newest element that sets it. */
  ghost predicate IsFold(content: map<string, Value>, elements: Elements, hs: set<Hash>)
    requires hs <= elements.Keys
  {
    && (forall h, f :: h in hs && f in elements[h].fields ==> f in content)
    && (forall f :: f in content ==> exists h :: SetsLast(elements, hs, h, f, content[f]))
  }

  ghost predicate SetsLast(elements: Elements, hs: set<Hash>, h: Hash, f: string, v: Value)
    requires hs <= elements.Keys
  {
    && h in hs && f in elements[h].fields && elements[h].fields[f] == v
    && forall k :: k in hs && f in elements[k].fields ==> elements[k].created <= elements[h].created
  }

  lemma {:induction false} MergeIsFold(elements: Elements, hs: set<Hash>, first: RowChoice)
    requires Chooses(first) && hs <= elements.Keys
    ensures IsFold(MergeByTime(elements, hs, first), elements, hs)
    decreases |hs|
  {
    if hs != {} {
      NewestExists(elements, hs);
      var x := first(Newest(elements, hs));
      var rest := hs - {x};
      MergeIsFold(elements, rest, first);
      FoldAppend(MergeByTime(elements, rest, first), elements, rest, x);
      assert rest + {x} == hs;
    }
  }

  /** Overlaying an element no older than the rest. */
  lemma {:induction false} FoldAppend(content: map<string, Value>, elements: Elements, hs: set<Hash>, x: Hash)
    requires hs <= elements.Keys && x in elements && IsFold(content, elements, hs)
    requires forall k :: k in hs ==> elements[k].created <= elements[x].created
    ensures IsFold(content + elements[x].fields, elements, hs + {x})
  {
    var all := content + elements[x].fields;
    forall f | f in all ensures exists h :: SetsLast(elements, hs + {x}, h, f, all[f]) {
      if f in elements[x].fields {
        assert SetsLast(elements, hs + {x}, x, f, all[f]);
      } else {
        var h :| SetsLast(elements, hs, h, f, content[f]);
        assert SetsLast(elements, hs + {x}, h, f, all[f]);
      }
    }
  }

  /** Laying an element older than the rest underneath. */
  lemma {:induction false} FoldPrepend(content: map<string, Value>, elements: Elements, hs: set<Hash>, x: Hash)
    requires hs <= elements.Keys && x in elements && x !in hs && IsFold(content, elements, hs)
    requires forall k :: k in hs ==> elements[x].created < elements[k].created
    ensures IsFold(elements[x].fields + content, elements, hs + {x})
  {
    var all := elements[x].fields + content;
    forall f | f in all ensures exists h :: SetsLast(elements, hs + {x}, h, f, all[f]) {
      if f in content {
        var h :| SetsLast(elements, hs, h, f, content[f]);
        assert SetsLast(elements, hs + {x}, h, f, all[f]);
      } else {
        assert SetsLast(elements, hs + {x}, x, f, all[f]);
      }
    }
  }

  // ----- the operations

  function ElementOf(m: Message): Element
    requires m.content.Aggregate?
  {
    Element(AggKey(m.content.key, m.address), m.content.fields, m.time)
  }

  /** The new row for an aggregate that gets one more element.  The conflict test of the source compares field
      names with method objects and never finds a conflict, so an element that is neither newer than the last
      revision nor older than the aggregate is appended too. */
  function Updated(elements: Elements, row: AggRow, h: Hash): Result<AggRow, ProcessingError>
    requires h in elements
  {
    var e := elements[h];
    if row.dirty then Ok(row)
    else if row.lastRevision !in elements then Err(Internal)
    else if elements[row.lastRevision].created < e.created then
      Ok(row.(content := row.content + e.fields, lastRevision := h))
    else if row.created > e.created then
      Ok(row.(content := e.fields + row.content, created := e.created))
    else
      Ok(row.(content := row.content + e.fields, lastRevision := h))
  }

  function Inserted(t: AggTables, h: Hash, m: Message): Result<AggTables, ProcessingError>
    requires m.content.Aggregate?
  {
    var e := ElementOf(m);
    var elements := t.elements[h := e];
    if h in t.elements then
      Err(Database)
    else if e.id.owner == SKIPPED_OWNER then
      Ok(AggTables(elements, t.rows))
    else if e.id !in t.rows then
      Ok(AggTables(elements, t.rows[e.id := AggRow(e.fields, e.created, h, false)]))
    else
      match Updated(elements, t.rows[e.id], h)
      case Ok(row) => Ok(AggTables(elements, t.rows[e.id := row]))
      case Err(err) => Err(err)
  }

  lemma {:induction false} OldestExists(elements: Elements, hs: set<Hash>)
    requires hs != {} && hs <= elements.Keys
    ensures exists x :: x in hs && forall k :: k in hs ==> elements[x].created <= elements[k].created
  {
    var x :| x in hs;
    var rest := hs - {x};
    if rest == {} {
      assert hs == {x};
    } else {
      OldestExists(elements, rest);
      var a :| a in rest && forall k :: k in rest ==> elements[a].created <= elements[k].created;
      var best := if elements[a].created <= elements[x].created then a else x;
      assert best in hs && forall k :: k in hs ==> elements[best].created <= elements[k].created;
    }
  }

  function MinCreated(elements: Elements, hs: set<Hash>): (t: Time)
    requires hs != {} && hs <= elements.Keys
    ensures (exists h :: h in hs && elements[h].created == t) && forall k :: k in hs ==> t <= elements[k].created
  {
    OldestExists(elements, hs);
    var times := set h | h in hs :: elements[h].created;
    var t :| t in times && forall k :: k in hs ==> t <= elements[k].created;
    t
  }

  /** Recomputes one aggregate from its elements.  Two newest elements would upsert one row twice in one statement,
      which the database refuses. */
  function Refreshed(t: AggTables, id: AggKey, first: RowChoice): Result<AggTables, ProcessingError>
    requires Chooses(first)
  {
    var hs := Of(t.elements, id);
    if hs == {} then
      Ok(t)
    else
      NewestExists(t.elements, hs);
      var newest := Newest(t.elements, hs);
      var last := first(newest);
      if newest != {last} then
        Err(Database)
      else
        Ok(t.(rows := t.rows[id := AggRow(MergeByTime(t.elements, hs, first), MinCreated(t.elements, hs), last,
                                          false)]))
  }

  function Forgotten(t: AggTables, h: Hash, c: Content, owner: Address, first: RowChoice)
      : Result<AggTables, ProcessingError>
    requires c.Aggregate? && Chooses(first)
  {
    var id := AggKey(c.key, owner);
    Refreshed(AggTables(t.elements - {h}, t.rows - {id}), id, first)
  }

  // ----- the cache against the fold

  /** The recorded creation time is that of a first element. */
  ghost predicate FirstOk(t: AggTables, id: AggKey)
    requires id in t.rows
  {
    && (exists h :: h in Of(t.elements, id) && t.elements[h].created == t.rows[id].created)
    && (forall k :: k in Of(t.elements, id) ==> t.rows[id].created <= t.elements[k].created)
  }

  /** The cached content is the merge of the elements. */
  ghost predicate ContentOk(t: AggTables, id: AggKey)
    requires id in t.rows
  {
    IsFold(t.rows[id].content, t.elements, Of(t.elements, id))
  }

  /** The cached row is the one a recomputation would give: merged content, first creation time, newest revision. */
  ghost predicate Exact(t: AggTables, id: AggKey)
    requires id in t.rows
  {
    ContentOk(t, id) && FirstOk(t, id) && t.rows[id].lastRevision in Newest(t.elements, Of(t.elements, id))
  }

  /** As far as there is a row. */
  ghost predicate ContentAt(t: AggTables, id: AggKey) {
    id in t.rows ==> ContentOk(t, id)
  }

  ghost predicate ExactAt(t: AggTables, id: AggKey) {
    id in t.rows ==> Exact(t, id)
  }

  lemma {:induction false} FoldDependsOnMembers(content: map<string, Value>, a: Elements, b: Elements, hs: set<Hash>)
    requires hs <= a.Keys && hs <= b.Keys && forall h :: h in hs ==> a[h] == b[h]
    requires IsFold(content, a, hs)
    ensures IsFold(content, b, hs)
  {
    forall f | f in content ensures exists h :: SetsLast(b, hs, h, f, content[f]) {
      var h :| SetsLast(a, hs, h, f, content[f]);
      assert SetsLast(b, hs, h, f, content[f]);
    }
  }

  /** Same row, same elements. */
  ghost predicate SameAggregate(t: AggTables, t': AggTables, id: AggKey) {
    && (id in t'.rows <==> id in t.rows) && (id in t.rows ==> t'.rows[id] == t.rows[id])
    && Of(t'.elements, id) == Of(t.elements, id)
    && forall h :: h in Of(t.elements, id) ==> t'.elements[h] == t.elements[h]
  }

  lemma {:induction false} SameStays(t: AggTables, t': AggTables, id: AggKey)
    requires SameAggregate(t, t', id)
    ensures ContentAt(t, id) ==> ContentAt(t', id)
    ensures ExactAt(t, id) ==> ExactAt(t', id)
    ensures id in t.rows && FirstOk(t, id) ==> FirstOk(t', id)
  {
    hide IsFold;
    if id in t.rows {
      var hs := Of(t.elements, id);
      if ContentOk(t, id) {
        FoldDependsOnMembers(t.rows[id].content, t.elements, t'.elements, hs);
      }
      assert Newest(t'.elements, hs) == Newest(t.elements, hs);
      if FirstOk(t, id) {
        var o :| o in hs && t.elements[o].created == t.rows[id].created;
        assert t'.elements[o].created == t.rows[id].created;
      }
    }
  }

  // ----- what holds whatever arrives

  /** A cached row names one of the aggregate's own elements as its last revision and is not marked dirty; the
      creation time of a maintained one is the first. */
  ghost predicate RowOk(t: AggTables, id: AggKey)
    requires id in t.rows
  {
    && t.rows[id].lastRevision in Of(t.elements, id) && !t.rows[id].dirty
    && (id.owner != SKIPPED_OWNER ==> FirstOk(t, id))
  }

  /** A row exists for every owner but the skipped one exactly when the aggregate has an element. */
  ghost predicate TablesOk(t: AggTables) {
    && (forall id :: id in t.rows ==> RowOk(t, id))
    && (forall h :: h in t.elements && t.elements[h].id.owner != SKIPPED_OWNER ==> t.elements[h].id in t.rows)
  }

  lemma {:induction false} OfInserted(t: AggTables, h: Hash, e: Element, id: AggKey)
    requires h !in t.elements
    ensures Of(t.elements[h := e], id) == Of(t.elements, id) + if e.id == id then {h} else {}
  {
  }

  /** An arrival leaves every other aggregate as it was, and for the skipped owner every row. */
  lemma {:induction false} InsertedOthers(t: AggTables, h: Hash, m: Message, id: AggKey)
    requires h !in t.elements && m.content.Aggregate? && Inserted(t, h, m).Ok?
    ensures id != ElementOf(m).id ==> SameAggregate(t, Inserted(t, h, m).value, id)
    ensures ElementOf(m).id.owner == SKIPPED_OWNER ==> Inserted(t, h, m).value.rows == t.rows
  {
    OfInserted(t, h, ElementOf(m), id);
  }

  /** The row of an arrival's own aggregate, by its place in time. */
  lemma {:induction false} InsertedRow(t: AggTables, h: Hash, m: Message)
    requires TablesOk(t) && h !in t.elements && m.content.Aggregate? && ElementOf(m).id.owner != SKIPPED_OWNER
    ensures Inserted(t, h, m).Ok?
    ensures var id, t' := ElementOf(m).id, Inserted(t, h, m).value;
            && t'.elements == t.elements[h := ElementOf(m)] && id in t'.rows
            && t'.rows[id] ==
               if id !in t.rows then AggRow(m.content.fields, m.time, h, false)
               else if m.time < t.rows[id].created then
                 t.rows[id].(content := m.content.fields + t.rows[id].content, created := m.time)
               else
                 t.rows[id].(content := t.rows[id].content + m.content.fields, lastRevision := h)
  {
    var id := ElementOf(m).id;
    if id in t.rows {
      assert RowOk(t, id);
    }
  }

  /** However the elements arrive, the creation time stays the first. */
  lemma {:induction false} InsertedFirst(t: AggTables, h: Hash, m: Message)
    requires TablesOk(t) && h !in t.elements && m.content.Aggregate? && ElementOf(m).id.owner != SKIPPED_OWNER
    ensures Inserted(t, h, m).Ok? && ElementOf(m).id in Inserted(t, h, m).value.rows
    ensures FirstOk(Inserted(t, h, m).value, ElementOf(m).id)
  {
    InsertedRow(t, h, m);
    var id, t' := ElementOf(m).id, Inserted(t, h, m).value;
    OfInserted(t, h, ElementOf(m), id);
    hide Inserted, Updated;
    assert h in Of(t'.elements, id);
    if id in t.rows {
      assert RowOk(t, id);
      var o :| o in Of(t.elements, id) && t.elements[o].created == t.rows[id].created;
      assert o in Of(t'.elements, id) && t'.elements[o].created == t.rows[id].created;
    } else {
      assert Of(t.elements, id) == {};
    }
  }

  lemma {:induction false} InsertedOk(t: AggTables, h: Hash, m: Message)
    requires TablesOk(t) && h !in t.elements && m.content.Aggregate?
    ensures Inserted(t, h, m).Ok? && TablesOk(Inserted(t, h, m).value)
  {
    hide FirstOk;
    var e := ElementOf(m);
    if e.id.owner != SKIPPED_OWNER {
      InsertedFirst(t, h, m);
      InsertedRow(t, h, m);
    }
    var t' := Inserted(t, h, m).value;
    forall id | id in t'.rows ensures RowOk(t', id) {
      OfInserted(t, h, e, id);
      InsertedOthers(t, h, m, id);
      if id in t.rows {
        assert RowOk(t, id);
        if id != e.id {
          SameStays(t, t', id);
        }
      }
    }
  }

  /** Forgetting an element leaves every other aggregate as it was. */
  lemma {:induction false} ForgottenOthers(t: AggTables, h: Hash, c: Content, owner: Address, first: RowChoice,
                                           id: AggKey)
    requires c.Aggregate? && Chooses(first) && Forgotten(t, h, c, owner, first).Ok?
    requires h in t.elements && t.elements[h].id == AggKey(c.key, owner) && id != AggKey(c.key, owner)
    ensures SameAggregate(t, Forgotten(t, h, c, owner, first).value, id)
  {
  }

  /** Forgetting an element fails exactly when two of the elements left are both newest. */
  lemma {:induction false} ForgottenOkIff(t: AggTables, h: Hash, c: Content, owner: Address, first: RowChoice)
    requires c.Aggregate? && Chooses(first)
    ensures var elements := t.elements - {h};
            var newest := Newest(elements, Of(elements, AggKey(c.key, owner)));
            Forgotten(t, h, c, owner, first).Ok? <==> forall a, b :: a in newest && b in newest ==> a == b
  {
    var elements := t.elements - {h};
    var hs := Of(elements, AggKey(c.key, owner));
    var newest := Newest(elements, hs);
    if hs != {} {
      NewestExists(elements, hs);
      var last := first(newest);
      assert last in newest;
      if forall a, b :: a in newest && b in newest ==> a == b {
        assert newest == {last};
      }
    }
  }

  /** It recomputes its own aggregate exactly, whatever state the row was in before. */
  lemma {:induction false} ForgottenExact(t: AggTables, h: Hash, c: Content, owner: Address, first: RowChoice)
    requires c.Aggregate? && Chooses(first) && Forgotten(t, h, c, owner, first).Ok?
    ensures var id, t' := AggKey(c.key, owner), Forgotten(t, h, c, owner, first).value;
            && t'.elements == t.elements - {h}
            && (id in t'.rows <==> Of(t'.elements, id) != {})
            && (id in t'.rows ==> Exact(t', id) && !t'.rows[id].dirty)
  {
    var id := AggKey(c.key, owner);
    var bare := AggTables(t.elements - {h}, t.rows - {id});
    var hs := Of(bare.elements, id);
    if hs != {} {
      MergeIsFold(bare.elements, hs, first);
      NewestExists(bare.elements, hs);
    }
  }

  lemma {:induction false} ForgottenOk(t: AggTables, h: Hash, c: Content, owner: Address, first: RowChoice)
    requires TablesOk(t) && c.Aggregate? && Chooses(first)
    requires h in t.elements && t.elements[h].id == AggKey(c.key, owner)
    requires Forgotten(t, h, c, owner, first).Ok?
    ensures TablesOk(Forgotten(t, h, c, owner, first).value)
  {
    var id, t' := AggKey(c.key, owner), Forgotten(t, h, c, owner, first).value;
    ForgottenExact(t, h, c, owner, first);
    hide Forgotten, FirstOk, ContentOk;
    forall i | i in t'.rows ensures RowOk(t', i) {
      if i != id {
        ForgottenOthers(t, h, c, owner, first, i);
        SameStays(t, t', i);
        assert RowOk(t, i);
      }
    }
    forall k | k in t'.elements && t'.elements[k].id.owner != SKIPPED_OWNER ensures t'.elements[k].id in t'.rows {
      if t'.elements[k].id == id {
        assert k in Of(t'.elements, id);
      } else {
        ForgottenOthers(t, h, c, owner, first, t'.elements[k].id);
      }
    }
  }

  // ----- arrivals

  /** The new element is no older than the last revision, or older than the whole aggregate. */
  predicate InTimeOrder(t: AggTables, m: Message)
    requires m.content.Aggregate?
  {
    var id := ElementOf(m).id;
    id in t.rows && t.rows[id].lastRevision in t.elements ==>
      m.time >= t.elements[t.rows[id].lastRevision].created || m.time < t.rows[id].created
  }

  /** A newer element sets a field of `e`, and no newest one that does sets it to the value of `e`. */
  ghost predicate ConflictsAt(elements: Elements, hs: set<Hash>, e: Element, f: string)
    requires hs <= elements.Keys
  {
    && f in e.fields && (exists k :: k in hs && f in elements[k].fields && elements[k].created > e.created)
    && forall x :: !SetsLast(elements, hs, x, f, e.fields[f])
  }

  /** The element is appended though some field of it is out of date with another value. */
  ghost predicate Conflicts(t: AggTables, m: Message)
    requires m.content.Aggregate?
  {
    var e := ElementOf(m);
    e.id in t.rows && m.time >= t.rows[e.id].created && exists f :: ConflictsAt(t.elements, Of(t.elements, e.id), e, f)
  }

  /** Overlaying any element keeps the merge exact if and only if it does not conflict. */
  lemma {:induction false} OverlayIff(content: map<string, Value>, elements: Elements, hs: set<Hash>, h: Hash)
    requires hs <= elements.Keys && h in elements && h !in hs && IsFold(content, elements, hs)
    ensures IsFold(content + elements[h].fields, elements, hs + {h}) <==>
            !exists f :: ConflictsAt(elements, hs, elements[h], f)
  {
    var e, all := elements[h], content + elements[h].fields;
    if f :| ConflictsAt(elements, hs, e, f) {
      OverlayBreaks(elements, hs, h, f);
      assert f in all && all[f] == e.fields[f];
    } else {
      forall f | f in all ensures exists k :: SetsLast(elements, hs + {h}, k, f, all[f]) {
        if f in e.fields {
          assert !ConflictsAt(elements, hs, e, f);
          OverlayKeeps(elements, hs, h, f);
          var x :| SetsLast(elements, hs + {h}, x, f, e.fields[f]);
          assert SetsLast(elements, hs + {h}, x, f, all[f]);
        } else {
          var k :| SetsLast(elements, hs, k, f, content[f]);
          assert SetsLast(elements, hs + {h}, k, f, all[f]);
        }
      }
    }
  }

  lemma {:induction false} OverlayBreaks(elements: Elements, hs: set<Hash>, h: Hash, f: string)
    requires hs <= elements.Keys && h in elements && h !in hs && ConflictsAt(elements, hs, elements[h], f)
    ensures forall x :: !SetsLast(elements, hs + {h}, x, f, elements[h].fields[f])
  {
    var k :| k in hs && f in elements[k].fields && elements[k].created > elements[h].created;
    forall x ensures !SetsLast(elements, hs + {h}, x, f, elements[h].fields[f]) {
      assert !SetsLast(elements, hs, x, f, elements[h].fields[f]);
      assert k in hs + {h};
    }
  }

  lemma {:induction false} OverlayKeeps(elements: Elements, hs: set<Hash>, h: Hash, f: string)
    requires hs <= elements.Keys && h in elements && h !in hs && f in elements[h].fields
    requires !ConflictsAt(elements, hs, elements[h], f)
    ensures exists x :: SetsLast(elements, hs + {h}, x, f, elements[h].fields[f])
  {
    if exists k :: k in hs && f in elements[k].fields && elements[k].created > elements[h].created {
      var x :| SetsLast(elements, hs, x, f, elements[h].fields[f]);
      assert SetsLast(elements, hs + {h}, x, f, elements[h].fields[f]);
    } else {
      assert SetsLast(elements, hs + {h}, h, f, elements[h].fields[f]);
    }
  }

  /** Any arrival on an aggregate with the right content leaves the right content if and only if it does not
      conflict.  Nothing is asked of the recorded last revision. */
  lemma {:induction false} ArrivalContentIff(t: AggTables, h: Hash, m: Message)
    requires TablesOk(t) && h !in t.elements && m.content.Aggregate? && ElementOf(m).id.owner != SKIPPED_OWNER
    requires ContentAt(t, ElementOf(m).id)
    ensures Inserted(t, h, m).Ok? && ElementOf(m).id in Inserted(t, h, m).value.rows
    ensures ContentOk(Inserted(t, h, m).value, ElementOf(m).id) <==> !Conflicts(t, m)
  {
    InsertedRow(t, h, m);
    var e, t' := ElementOf(m), Inserted(t, h, m).value;
    hide Inserted, Updated, IsFold, ConflictsAt;
    var hs := Of(t.elements, e.id);
    OfInserted(t, h, e, e.id);
    if e.id !in t.rows {
      assert hs == {};
      EmptyFold(t'.elements);
      FoldAppend(map[], t'.elements, hs, h);
      assert map[] + e.fields == e.fields;
    } else {
      assert RowOk(t, e.id);
      FoldDependsOnMembers(t.rows[e.id].content, t.elements, t'.elements, hs);
      if m.time < t.rows[e.id].created {
        FoldPrepend(t.rows[e.id].content, t'.elements, hs, h);
      } else {
        OverlayIff(t.rows[e.id].content, t'.elements, hs, h);
        ConflictSame(t.elements, t'.elements, hs, e);
      }
    }
  }

  lemma {:induction false} EmptyFold(elements: Elements)
    ensures IsFold(map[], elements, {})
  {
  }

  lemma {:induction false} ConflictSame(a: Elements, b: Elements, hs: set<Hash>, e: Element)
    requires hs <= a.Keys && hs <= b.Keys && forall h :: h in hs ==> a[h] == b[h]
    ensures forall f :: ConflictsAt(a, hs, e, f) <==> ConflictsAt(b, hs, e, f)
  {
    forall f ensures ConflictsAt(a, hs, e, f) <==> ConflictsAt(b, hs, e, f) {
      if f in e.fields {
        assert forall x :: SetsLast(a, hs, x, f, e.fields[f]) <==> SetsLast(b, hs, x, f, e.fields[f]);
      }
    }
  }

  /** The recorded last revision is a newest element after an arrival if and only if it was before, for an element
      older than the whole aggregate, and otherwise if and only if no element is newer than the new one. */
  lemma {:induction false} ArrivalRevisionIff(t: AggTables, h: Hash, m: Message)
    requires TablesOk(t) && h !in t.elements && m.content.Aggregate? && ElementOf(m).id.owner != SKIPPED_OWNER
    ensures Inserted(t, h, m).Ok? && ElementOf(m).id in Inserted(t, h, m).value.rows
    ensures var id, t' := ElementOf(m).id, Inserted(t, h, m).value;
            t'.rows[id].lastRevision in Newest(t'.elements, Of(t'.elements, id)) <==>
            if id in t.rows && m.time < t.rows[id].created then
                t.rows[id].lastRevision in Newest(t.elements, Of(t.elements, id))
            else forall k :: k in Of(t.elements, id) ==> t.elements[k].created <= m.time
  {
    InsertedRow(t, h, m);
    var e, t' := ElementOf(m), Inserted(t, h, m).value;
    hide Inserted, Updated;
    OfInserted(t, h, e, e.id);
    assert h in Of(t'.elements, e.id);
    if e.id in t.rows {
      assert RowOk(t, e.id);
      assert forall k :: k in Of(t.elements, e.id) ==> k in Of(t'.elements, e.id) && t'.elements[k] == t.elements[k];
    }
  }

  /** An element in time order keeps its cached row exact. */
  lemma {:induction false} InsertedExact(t: AggTables, h: Hash, m: Message)
    requires TablesOk(t) && h !in t.elements && m.content.Aggregate? && ElementOf(m).id.owner != SKIPPED_OWNER
    requires ExactAt(t, ElementOf(m).id) && InTimeOrder(t, m)
    ensures Inserted(t, h, m).Ok?
    ensures ElementOf(m).id in Inserted(t, h, m).value.rows && Exact(Inserted(t, h, m).value, ElementOf(m).id)
  {
    hide IsFold, Inserted, Updated, FirstOk;
    var e := ElementOf(m);
    InsertedFirst(t, h, m);
    ArrivalContentIff(t, h, m);
    ArrivalRevisionIff(t, h, m);
    if e.id in t.rows {
      assert t.rows[e.id].lastRevision in Newest(t.elements, Of(t.elements, e.id));
      if m.time >= t.rows[e.id].created {
        assert forall k :: k in Of(t.elements, e.id) ==> t.elements[k].created <= m.time;
        assert forall f :: !ConflictsAt(t.elements, Of(t.elements, e.id), e, f);
      }
    } else {
      assert Of(t.elements, e.id) == {};
    }
  }

  /** An element that arrives between the first and the recorded last revision keeps the content right if and only if
      it does not conflict; the recorded last revision is wrong afterwards in every case. */
  lemma {:induction false} InBetween(t: AggTables, h: Hash, m: Message)
    requires TablesOk(t) && h !in t.elements && m.content.Aggregate? && ElementOf(m).id.owner != SKIPPED_OWNER
    requires ElementOf(m).id in t.rows && ContentOk(t, ElementOf(m).id) && !InTimeOrder(t, m)
    ensures Inserted(t, h, m).Ok?
    ensures var id, t' := ElementOf(m).id, Inserted(t, h, m).value;
            && id in t'.rows && (ContentOk(t', id) <==> !Conflicts(t, m))
            && t'.rows[id].lastRevision !in Newest(t'.elements, Of(t'.elements, id))
  {
    hide IsFold, Inserted, Updated, FirstOk, Conflicts;
    ArrivalContentIff(t, h, m);
    ArrivalRevisionIff(t, h, m);
    assert RowOk(t, ElementOf(m).id);
  }

  /** In particular an arrival whose fields are not cached yet gives the right content. */
  lemma {:induction false} DisjointArrival(t: AggTables, h: Hash, m: Message)
    requires TablesOk(t) && h !in t.elements && m.content.Aggregate? && ElementOf(m).id.owner != SKIPPED_OWNER
    requires ElementOf(m).id in t.rows && ContentOk(t, ElementOf(m).id)
    requires forall f :: f in m.content.fields ==> f !in t.rows[ElementOf(m).id].content
    ensures Inserted(t, h, m).Ok?
    ensures ElementOf(m).id in Inserted(t, h, m).value.rows && ContentOk(Inserted(t, h, m).value, ElementOf(m).id)
  {
    hide Inserted, Updated;
    ArrivalContentIff(t, h, m);
  }

  // ----- over several operations

  /** An element of the aggregate has gone. */
  ghost predicate Shrunk(t: AggTables, t': AggTables, id: AggKey) {
    exists h :: h in Of(t.elements, id) && h !in t'.elements
  }

  /** Elements only go; an aggregate that lost one is exact, and any other is as good as it was. */
  ghost predicate AggsLeft(t: AggTables, t': AggTables) {
    && (forall h :: h in t'.elements ==> h in t.elements && t'.elements[h] == t.elements[h])
    && (forall id :: ExactAt(t, id) || Shrunk(t, t', id) ==> ExactAt(t', id))
    && (forall id :: ContentAt(t, id) || Shrunk(t, t', id) ==> ContentAt(t', id))
  }

  lemma {:induction false} AggsLeftSelf(t: AggTables)
    ensures AggsLeft(t, t)
  {
  }

  lemma {:induction false} AggsLeftTwice(t: AggTables, t1: AggTables, t2: AggTables)
    requires AggsLeft(t, t1) && AggsLeft(t1, t2)
    ensures AggsLeft(t, t2)
  {
    hide ExactAt, ContentAt;
    forall id | Shrunk(t, t2, id) ensures Shrunk(t, t1, id) || Shrunk(t1, t2, id) {
      var h :| h in Of(t.elements, id) && h !in t2.elements;
      if h in t1.elements {
        assert h in Of(t1.elements, id);
      }
    }
  }

  lemma {:induction false} ForgottenAggsLeft(t: AggTables, h: Hash, c: Content, owner: Address, first: RowChoice)
    requires c.Aggregate? && Chooses(first) && Forgotten(t, h, c, owner, first).Ok?
    requires h in t.elements && t.elements[h].id == AggKey(c.key, owner)
    ensures AggsLeft(t, Forgotten(t, h, c, owner, first).value)
  {
    var own, t' := AggKey(c.key, owner), Forgotten(t, h, c, owner, first).value;
    ForgottenExact(t, h, c, owner, first);
    assert ExactAt(t', own) && ContentAt(t', own);
    hide Forgotten, ContentAt, ExactAt;
    forall id | id != own
      ensures !Shrunk(t, t', id) && (ExactAt(t, id) ==> ExactAt(t', id)) && (ContentAt(t, id) ==> ContentAt(t', id))
    {
      ForgottenOthers(t, h, c, owner, first, id);
      SameStays(t, t', id);
    }
  }

  /** What an arrival does to one aggregate. */
  ghost predicate ArrivalFor(t: AggTables, m: Message, t': AggTables, id: AggKey) {
    var own := m.content.Aggregate? && ElementOf(m).id == id;
    && (ExactAt(t, id) && (own ==> id.owner != SKIPPED_OWNER && InTimeOrder(t, m)) ==> ExactAt(t', id))
    && (ContentAt(t, id) && (own ==> id.owner != SKIPPED_OWNER && !Conflicts(t, m)) ==> ContentAt(t', id))
  }

  lemma {:induction false} InsertedFor(t: AggTables, h: Hash, m: Message, id: AggKey)
    requires TablesOk(t) && h !in t.elements && m.content.Aggregate? && Inserted(t, h, m).Ok?
    ensures ArrivalFor(t, m, Inserted(t, h, m).value, id)
  {
    var t', own := Inserted(t, h, m).value, ElementOf(m).id;
    hide Inserted, Conflicts, InTimeOrder, ContentOk, Exact;
    if id != own {
      InsertedOthers(t, h, m, id);
      SameStays(t, t', id);
    } else if id.owner != SKIPPED_OWNER {
      if ExactAt(t, id) && InTimeOrder(t, m) {
        InsertedExact(t, h, m);
      }
      if ContentAt(t, id) {
        ArrivalContentIff(t, h, m);
      }
    }
  }
}
