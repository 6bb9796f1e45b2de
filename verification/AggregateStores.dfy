/** The aggregate tables as an object (`src/aleph/handlers/content/aggregate.py`,
    `src/aleph/db/accessors/aggregates.py`). */
module AggregateStores {
  import opened Wrappers
  import opened Records
  import opened Aggregates

  /** No later element of the list sets the field. */
  ghost predicate SetLastAt(elements: seq<Element>, i: int, f: string) {
    0 <= i < |elements| && f in elements[i].fields && forall j :: i < j < |elements| ==> f !in elements[j].fields
  }

  /** The fields of all elements, each with the value of the last element in the list that sets it. */
  method MergeAggregateElements(elements: seq<Element>) returns (content: map<string, Value>)
    ensures forall i, f :: 0 <= i < |elements| && f in elements[i].fields ==> f in content
    ensures forall f :: f in content ==> exists i :: SetLastAt(elements, i, f) && content[f] == elements[i].fields[f]
  {
    content := map[];
    for n := 0 to |elements|
      invariant forall i, f :: 0 <= i < n && f in elements[i].fields ==> f in content
      invariant forall f :: f in content ==>
                  exists i :: SetLastAt(elements[..n], i, f) && content[f] == elements[i].fields[f]
    {
      ghost var before := content;
      content := content + elements[n].fields;
      forall f | f in content
        ensures exists i :: SetLastAt(elements[..n + 1], i, f) && content[f] == elements[i].fields[f]
      {
        if f in elements[n].fields {
          assert SetLastAt(elements[..n + 1], n, f);
        } else {
          var i :| SetLastAt(elements[..n], i, f) && before[f] == elements[i].fields[f];
          assert SetLastAt(elements[..n + 1], i, f);
        }
      }
    }
    assert elements[..|elements|] == elements;
  }

  class AggregateStore {
    var elements: Elements
    var rows: map<AggKey, AggRow>
    const first: RowChoice

    function Contents(): AggTables
      reads this
    {
      AggTables(elements, rows)
    }

    constructor (first: RowChoice)
      ensures Contents() == AggTables(map[], map[]) && this.first == first
    {
      elements, rows := map[], map[];
      this.first := first;
    }

    method Restore(t: AggTables)
      modifies this
      ensures Contents() == t
    {
      elements, rows := t.elements, t.rows;
    }

    method AppendToAggregate(id: AggKey, h: Hash, fields: map<string, Value>)
      requires id in rows
      modifies `rows
      ensures rows == old(rows)[id := old(rows)[id].(content := old(rows)[id].content + fields, lastRevision := h)]
    {
      rows := rows[id := rows[id].(content := rows[id].content + fields, lastRevision := h)];
    }

    method PrependToAggregate(id: AggKey, fields: map<string, Value>, created: Time)
      requires id in rows
      modifies `rows
      ensures rows == old(rows)[id := old(rows)[id].(content := fields + old(rows)[id].content, created := created)]
    {
      rows := rows[id := rows[id].(content := fields + rows[id].content, created := created)];
    }

    /** Creates the aggregate, skips a dirty one, or extends it at the end that the element's time calls for. */
    method UpdateAggregate(id: AggKey, h: Hash) returns (r: Result<(), ProcessingError>)
      requires h in elements && elements[h].id == id
      modifies `rows
      ensures if id.owner == SKIPPED_OWNER then r == Ok(()) && rows == old(rows)
              else if id !in old(rows) then
                r == Ok(()) && rows == old(rows)[id := AggRow(elements[h].fields, elements[h].created, h, false)]
              else match Updated(elements, old(rows)[id], h)
                case Ok(row) => r == Ok(()) && rows == old(rows)[id := row]
                case Err(e) => r == Err(e)
    {
      if id.owner == SKIPPED_OWNER {
        return Ok(());
      }
      var e := elements[h];
      if id !in rows {
        var content := MergeAggregateElements([e]);
        MergedSingle(e, content);
        rows := rows[id := AggRow(content, e.created, h, false)];
        return Ok(());
      }
      var row := rows[id];
      if row.dirty {
        assert old(rows)[id := row] == old(rows);
        return Ok(());
      }
      if row.lastRevision !in elements {
        return Err(Internal);
      }
      if elements[row.lastRevision].created < e.created {
        AppendToAggregate(id, h, e.fields);
        return Ok(());
      }
      if row.created > e.created {
        PrependToAggregate(id, e.fields, e.created);
        return Ok(());
      }
      // The test for conflicting fields compares names with method objects, so none is ever found.
      AppendToAggregate(id, h, e.fields);
      return Ok(());
    }

    method ProcessElement(h: Hash, m: Message) returns (r: Result<(), ProcessingError>)
      requires m.content.Aggregate?
      modifies this
      ensures match Inserted(old(Contents()), h, m)
              case Ok(t) => r == Ok(()) && Contents() == t
              case Err(e) => r == Err(e)
    {
      if h in elements {
        return Err(Database);
      }
      var e := ElementOf(m);
      elements := elements[h := e];
      r := UpdateAggregate(e.id, h);
    }

    method RefreshAggregate(id: AggKey) returns (r: Result<(), ProcessingError>)
      requires Chooses(first)
      modifies `rows
      ensures match Refreshed(old(Contents()), id, first)
              case Ok(t) => r == Ok(()) && Contents() == t
              case Err(e) => r == Err(e)
    {
      var hs := Of(elements, id);
      if hs == {} {
        return Ok(());
      }
      NewestExists(elements, hs);
      var newest := Newest(elements, hs);
      var last := first(newest);
      if newest != {last} {
        return Err(Database);
      }
      rows := rows[id := AggRow(MergeByTime(elements, hs, first), MinCreated(elements, hs), last, false)];
      r := Ok(());
    }

    method ForgetMessage(h: Hash, c: Content, owner: Address) returns (r: Result<(), ProcessingError>)
      requires c.Aggregate? && Chooses(first)
      modifies this
      ensures match Forgotten(old(Contents()), h, c, owner, first)
              case Ok(t) => r == Ok(()) && Contents() == t
              case Err(e) => r == Err(e)
    {
      var id := AggKey(c.key, owner);
      rows := rows - {id};
      elements := elements - {h};
      r := RefreshAggregate(id);
    }
  }

  lemma {:induction false} MergedSingle(e: Element, content: map<string, Value>)
    requires forall i, f :: 0 <= i < |[e]| && f in [e][i].fields ==> f in content
    requires forall f :: f in content ==> exists i :: SetLastAt([e], i, f) && content[f] == [e][i].fields[f]
    ensures content == e.fields
  {
    forall f ensures f in content <==> f in e.fields {
      if f in e.fields {
        assert f in [e][0].fields;
      }
    }
  }
}
