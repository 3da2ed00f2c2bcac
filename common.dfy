/** Shared vocabulary of the internship ("PKL") portal model: optional
    references, primary keys, the outcome of Python's `int(...)` on a posted
    form value, and the database table every model is stored in. */
module Common {

  datatype Option<+T> = None | Some(value: T)

  /** Primary keys. Django's automatic keys are positive integers. */
  type DosenId = nat
  type MahasiswaId = nat
  type PeriodeId = nat
  type MitraId = nat

  /** Dates, times of day and date-times, compared only for equality and
      order. */
  type Date = int
  type Time = int
  type DateTime = int

  /** What a view gets when it reads a POST field and applies `int(...)`:
      the field is absent or empty (a falsy value, or `int(None)` raising
      TypeError), the text is not an integer literal (ValueError), or a
      number. */
  datatype PostedInt = Missing | Malformed | Given(n: int)

  /** One table of the relational store: rows by primary key, and the
      auto-increment counter that hands out the key of the next inserted row. */
  class Table<T> {
    var rows: map<nat, T>
    var nextId: nat

    ghost predicate Valid()
      reads this
    {
      forall k :: k in rows ==> k < nextId
    }

    constructor ()
      ensures Valid() && rows == map[]
    {
      rows := map[];
      nextId := 1;
    }

    /** `Model.objects.create(...)` / first `save()` of a new instance. */
    method Insert(x: T) returns (id: nat)
      requires Valid()
      modifies this
      ensures Valid()
      ensures id !in old(rows) && rows == old(rows)[id := x]
    {
      id := nextId;
      rows := rows[id := x];
      nextId := nextId + 1;
    }

    /** `save()` of an instance that already has a primary key. */
    method Update(id: nat, x: T)
      requires Valid() && id in rows
      modifies this
      ensures Valid()
      ensures rows == old(rows)[id := x]
    {
      rows := rows[id := x];
    }
  }
}
