/**
 * The audit trail every booking model keeps (`TrackingMixin`): each save
 * records one event and one tracked value per field worth recording, and each
 * delete records a deletion event before the row goes. An object is its map
 * from field name to value; the user and the time stamp of an event are not
 * modelled.
 */
module Tracking {

  import opened Common
  import opened Text

  /** `TrackingEvent.ADD`, `CHANGE` and `DELETE` (codes 1, 2 and 3). */
  datatype Operation = Add | Change | Delete

  function OperationCode(op: Operation): (code: int)
    ensures 1 <= code <= 3
    ensures op == Add <==> code == 1
    ensures op == Delete <==> code == 3
  {
    match op
    case Add => 1
    case Change => 2
    case Delete => 3
  }

  /** A field value: None, a string, an integer, a boolean, or another value shown by its text. */
  datatype FieldValue = Null | Str(text: string) | Number(number: int) | Flag(flag: bool) | Other(shown: string)

  /** `str(value)`. */
  function Render(v: FieldValue): string {
    match v
    case Null => "None"
    case Str(s) => s
    case Number(n) => IntToString(n)
    case Flag(b) => if b then "True" else "False"
    case Other(s) => s
  }

  type Record = map<string, FieldValue>

  /** `getattr(obj, name)`. */
  function Get(r: Record, name: string): FieldValue {
    if name in r then r[name] else Null
  }

  datatype Event = Event(operation: Operation, objPk: nat)

  /** A tracked value: the index of its event, the field name and the value's text. */
  datatype TrackedValue = TrackedValue(event: nat, field: string, value: string)

  /**
   * Which fields a save records: never `id`; on a first save every field set to
   * something other than None or the empty string; on a change every field whose
   * value differs from the stored row.
   */
  predicate ShouldRecord(name: string, change: bool, before: Record, after: Record) {
    name != "id"
    && ((!change && Get(after, name) != Null && Get(after, name) != Str(""))
        || (change && Get(after, name) != Get(before, name)))
  }

  /** The values one save records, in the order of the fields. */
  function Recorded(event: nat, fields: seq<string>, change: bool, before: Record, after: Record): seq<TrackedValue> {
    if fields == [] then []
    else
      var name := fields[|fields| - 1];
      Recorded(event, fields[..|fields| - 1], change, before, after)
        + (if ShouldRecord(name, change, before, after) then [TrackedValue(event, name, Render(Get(after, name)))] else [])
  }

  /** The fields a save should record. */
  function RecordedFields(fields: seq<string>, change: bool, before: Record, after: Record): (r: seq<string>)
    ensures forall name :: name in r <==> name in fields && ShouldRecord(name, change, before, after)
  {
    Where(fields, (name: string) => ShouldRecord(name, change, before, after))
  }

  function FieldOf(v: TrackedValue): string {
    v.field
  }

  /**
   * A save records exactly the fields it should, in field order, each under the
   * save's event and with the text of the new value.
   */
  lemma RecordedExactly(event: nat, fields: seq<string>, change: bool, before: Record, after: Record)
    ensures var r := Recorded(event, fields, change, before, after);
      && MapSeq(r, FieldOf) == RecordedFields(fields, change, before, after)
      && forall k :: 0 <= k < |r| ==> r[k].event == event && r[k].value == Render(Get(after, r[k].field))
  {
    RecordedInOrder(event, fields, change, before, after);
    RecordedValues(event, fields, change, before, after);
    var r := Recorded(event, fields, change, before, after);
    assert forall k :: 0 <= k < |r| ==> r[k] in r;
  }

  /** The fields of the recorded values are the fields to record, in order. */
  lemma {:induction false} RecordedInOrder(event: nat, fields: seq<string>, change: bool, before: Record, after: Record)
    ensures MapSeq(Recorded(event, fields, change, before, after), FieldOf) == RecordedFields(fields, change, before, after)
  {
    if fields != [] {
      var init := fields[..|fields| - 1];
      var name := fields[|fields| - 1];
      RecordedInOrder(event, init, change, before, after);
      var r0 := Recorded(event, init, change, before, after);
      var tail := if ShouldRecord(name, change, before, after) then [TrackedValue(event, name, Render(Get(after, name)))] else [];
      assert Recorded(event, fields, change, before, after) == r0 + tail;
      var m := MapSeq(r0 + tail, FieldOf);
      assert m == MapSeq(r0, FieldOf) + MapSeq(tail, FieldOf) by {
        assert forall k :: 0 <= k < |r0| ==> m[k] == MapSeq(r0, FieldOf)[k];
        assert forall k :: |r0| <= k < |m| ==> m[k] == MapSeq(tail, FieldOf)[k - |r0|];
      }
      assert MapSeq(tail, FieldOf) == if ShouldRecord(name, change, before, after) then [name] else [];
    }
  }

  /** Every recorded value carries the save's event and the text of the new value. */
  lemma {:induction false} RecordedValues(event: nat, fields: seq<string>, change: bool, before: Record, after: Record)
    ensures forall v :: v in Recorded(event, fields, change, before, after) ==> v.event == event && v.value == Render(Get(after, v.field))
  {
    if fields != [] {
      var init := fields[..|fields| - 1];
      var name := fields[|fields| - 1];
      RecordedValues(event, init, change, before, after);
      var r0 := Recorded(event, init, change, before, after);
      var tail := if ShouldRecord(name, change, before, after) then [TrackedValue(event, name, Render(Get(after, name)))] else [];
      var r := Recorded(event, fields, change, before, after);
      assert r == r0 + tail;
    }
  }

  /** A first save records the non-id fields that are set and not empty. */
  lemma FirstSaveRecords(fields: seq<string>, after: Record, name: string)
    requires name in fields
    ensures name in RecordedFields(fields, false, map[], after)
      <==> name != "id" && Get(after, name) != Null && Get(after, name) != Str("")
  {
  }

  /** A later save records the non-id fields whose value differs from the stored row. */
  lemma ChangeRecords(fields: seq<string>, before: Record, after: Record, name: string)
    requires name in fields
    ensures name in RecordedFields(fields, true, before, after) <==> name != "id" && Get(after, name) != Get(before, name)
  {
  }

  /** Saving an unchanged object records an event and no value. */
  lemma {:induction false} UnchangedSaveRecordsNothing(event: nat, fields: seq<string>, row: Record)
    ensures Recorded(event, fields, true, row, row) == []
  {
    if fields != [] {
      UnchangedSaveRecordsNothing(event, fields[..|fields| - 1], row);
    }
  }

  /** The rows of a model's table and the two audit tables. */
  datatype Tables = Tables(rows: map<nat, Record>, events: seq<Event>, values: seq<TrackedValue>)

  /**
   * `save` on an object with primary key `pk` (None before the first save) and
   * field values `data`; `newPk` is the key the database assigns to an inserted
   * row. The object counts as changed when its key is set and non-zero, and then
   * its stored row is fetched first: None when that row is missing, where the
   * lookup raises. The operation is chosen after the row is written, from the key
   * the object then has.
   */
  function SaveEffect(t: Tables, fields: seq<string>, pk: Option<nat>, data: Record, newPk: nat): Option<Tables> {
    var change := pk.Some? && pk.value != 0;
    if change && pk.value !in t.rows then None
    else
      var before := if change then t.rows[pk.value] else map[];
      var id := if pk.Some? then pk.value else newPk;
      var op := if id != 0 then Change else Add;
      Some(Tables(t.rows[id := data], t.events + [Event(op, id)],
        t.values + Recorded(|t.events|, fields, change, before, data)))
  }

  /** `delete`: the deletion event is recorded, then the row removed. */
  function DeleteEffect(t: Tables, pk: nat): Tables {
    Tables(t.rows - {pk}, t.events + [Event(Delete, pk)], t.values)
  }

  /**
   * Every save that goes through stores the object's values and adds exactly one
   * event, about the saved row; a new object gets a non-zero key from the
   * database, so even its creation is tagged CHANGE, and ADD is only ever
   * recorded for a row whose key is 0.
   */
  lemma SaveRecordsOneEvent(t: Tables, fields: seq<string>, pk: Option<nat>, data: Record, newPk: nat)
    requires pk.None? ==> newPk >= 1
    ensures var r := SaveEffect(t, fields, pk, data, newPk);
      && (r.None? <==> pk.Some? && pk.value != 0 && pk.value !in t.rows)
      && (r.Some? ==>
            var id := if pk.Some? then pk.value else newPk;
            && r.value.rows == t.rows[id := data]
            && |r.value.events| == |t.events| + 1 && r.value.events[..|t.events|] == t.events
            && r.value.events[|t.events|].objPk == id
            && (r.value.events[|t.events|].operation == Add <==> id == 0)
            && r.value.events[|t.events|].operation != Delete
            && (pk.None? ==> r.value.events[|t.events|].operation == Change)
            && r.value.values[..|t.values|] == t.values)
  {
    var r := SaveEffect(t, fields, pk, data, newPk);
    if r.Some? {
      var change := pk.Some? && pk.value != 0;
      var before := if change then t.rows[pk.value] else map[];
      assert r.value.values == t.values + Recorded(|t.events|, fields, change, before, data);
    }
  }

  /** A delete keeps earlier events and values, adds one DELETE event and drops the row. */
  lemma DeleteRecordsOneEvent(t: Tables, pk: nat)
    ensures var r := DeleteEffect(t, pk);
      && pk !in r.rows && (forall k :: k in t.rows && k != pk ==> k in r.rows && r.rows[k] == t.rows[k])
      && |r.events| == |t.events| + 1 && r.events[..|t.events|] == t.events
      && r.events[|t.events|] == Event(Delete, pk)
      && r.values == t.values
  {
  }

  /** The database as the mixin sees it. */
  class Database {
    var rows: map<nat, Record>
    var events: seq<Event>
    var values: seq<TrackedValue>

    constructor()
      ensures rows == map[] && events == [] && values == []
    {
      rows := map[];
      events := [];
      values := [];
    }

    /** `TrackingMixin.save`; `saved` is the object's key, None when the lookup of the stored row raised. */
    method Save(fields: seq<string>, pk: Option<nat>, data: Record, newPk: nat) returns (saved: Option<nat>)
      modifies this
      ensures var r := SaveEffect(Tables(old(rows), old(events), old(values)), fields, pk, data, newPk);
        && (saved.Some? <==> r.Some?)
        && (r.Some? ==> Tables(rows, events, values) == r.value && saved.value == (if pk.Some? then pk.value else newPk))
        && (r.None? ==> rows == old(rows) && events == old(events) && values == old(values))
    {
      var change := pk.Some? && pk.value != 0;
      var stored: Record := map[];
      if change {
        if pk.value !in rows {
          return None;
        }
        stored := rows[pk.value];
      }
      var id := if pk.Some? then pk.value else newPk;
      rows := rows[id := data];
      var event := |events|;
      events := events + [Event(if id != 0 then Change else Add, id)];
      ghost var start := values;
      ghost var rowsNow, eventsNow := rows, events;
      var i := 0;
      while i < |fields|
        invariant i <= |fields|
        invariant rows == rowsNow && events == eventsNow
        invariant values == start + Recorded(event, fields[..i], change, stored, data)
      {
        assert fields[..i + 1][..i] == fields[..i];
        var name := fields[i];
        if name != "id" {
          var value := Get(data, name);
          if (!change && value != Null && value != Str("")) || (change && value != Get(stored, name)) {
            values := values + [TrackedValue(event, name, Render(value))];
          }
        }
        i := i + 1;
      }
      assert fields[..i] == fields;
      return Some(id);
    }

    /** `TrackingMixin.delete`. */
    method Delete(pk: nat)
      modifies this
      ensures Tables(rows, events, values) == DeleteEffect(Tables(old(rows), old(events), old(values)), pk)
    {
      events := events + [Event(Operation.Delete, pk)];
      rows := rows - {pk};
    }
  }
}
