/** The `readings` table behind src/lib/supabase.ts, as an object holding
    the stored rows by id. The database client is not modelled: what the
    database answers to an insert (the id and timestamp it assigned, or an
    error, and the message it gives when the id is already taken) and
    whether it can be reached for a lookup are parameters. */
module Store {
  import opened Wrappers
  import opened Types

  /** `ReadingRow`: a stored reading. */
  datatype Row = Row(
    id: string,
    category: Category,
    concern: string,
    cardId: string,
    orientation: Orientation,
    interpretation: string,
    createdAt: string)

  /** `InsertReadingData`: what the pipeline asks to store. */
  datatype NewReading = NewReading(
    category: Category,
    concern: string,
    cardId: string,
    orientation: Orientation,
    interpretation: string)

  /** The database's answer to an insert. */
  datatype InsertReply = Assigned(id: string, createdAt: string) | InsertError(message: string)

  const SaveFailedPrefix: string := "리딩 저장에 실패했습니다: "

  /** The row an insert stores, with the id and timestamp the database gave it. */
  function RowOf(data: NewReading, id: string, createdAt: string): Row {
    Row(id, data.category, data.concern, data.cardId, data.orientation, data.interpretation, createdAt)
  }

  class ReadingStore {
    var rows: map<string, Row>

    /** Every row is filed under its own id. */
    ghost predicate Valid()
      reads this
    {
      forall id :: id in rows ==> rows[id].id == id
    }

    constructor ()
      ensures Valid() && rows == map[]
    {
      rows := map[];
    }

    /** `saveReading`: store one row under the id the database assigned.
        A database error, or an id already taken (the primary key), stores
        nothing and fails with the database's message, `conflict` being what
        it reports for a taken key, wrapped in the save-failed prefix. */
    method Insert(data: NewReading, reply: InsertReply, conflict: string) returns (r: Result<Row, string>)
      requires Valid()
      modifies this
      ensures Valid()
      ensures r.Success? <==> reply.Assigned? && reply.id !in old(rows)
      ensures reply.InsertError? ==> r == Failure(SaveFailedPrefix + reply.message)
      ensures reply.Assigned? && reply.id in old(rows) ==> r == Failure(SaveFailedPrefix + conflict)
      ensures r.Success? ==> r.value == RowOf(data, reply.id, reply.createdAt)
      ensures r.Success? ==> rows == old(rows)[reply.id := r.value]
      ensures r.Failure? ==> rows == old(rows)
    {
      match reply
      case InsertError(message) =>
        r := Failure(SaveFailedPrefix + message);
      case Assigned(id, createdAt) =>
        if id in rows {
          r := Failure(SaveFailedPrefix + conflict);
        } else {
          var row := RowOf(data, id, createdAt);
          rows := rows[id := row];
          r := Success(row);
        }
    }

    /** `getReadingById`: the row with that id, when the database can be
        reached and has it. */
    function Lookup(id: string, reachable: bool): (r: Option<Row>)
      reads this
      ensures r.Some? <==> reachable && id in rows
      ensures r.Some? ==> r.value == rows[id]
      ensures Valid() && r.Some? ==> r.value.id == id
    {
      if reachable && id in rows then Some(rows[id]) else None
    }
  }
}
