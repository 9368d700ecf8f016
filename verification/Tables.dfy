/** Database tables: rows under an auto-increment key that is never reused. */
module Tables {

  datatype Table<R> = Table(rows: map<nat, R>, next: nat)

  ghost predicate KeysBelow<R>(t: Table<R>)
  {
    forall id :: id in t.rows ==> id < t.next
  }

  function Insert<R>(t: Table<R>, r: R): Table<R>
  {
    Table(t.rows[t.next := r], t.next + 1)
  }

  function Update<R>(t: Table<R>, id: nat, r: R): Table<R>
    requires id in t.rows
  {
    Table(t.rows[id := r], t.next)
  }

  function Delete<R>(t: Table<R>, ids: set<nat>): Table<R>
  {
    Table(map id | id in t.rows && id !in ids :: t.rows[id], t.next)
  }
}
