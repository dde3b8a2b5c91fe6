/** The subscription list and its two mutations: adding a record from the
    form (with its spreadsheet row) and deleting records by id. */
module Store {
  import opened Seqs

  /** One subscription. `id` is the creation time in milliseconds and is not
      guaranteed to be unique: two records created in the same millisecond
      share it. */
  datatype Record = Record(id: int, name: string, service: string, startDate: string, endDate: string)

  /** The contents of the add form. */
  datatype Form = Form(name: string, service: string, startDate: string, endDate: string)

  /** The payload sent to the spreadsheet for a newly added record. */
  datatype SheetRow = SheetRow(timestamp: string, name: string, service: string,
                               startDate: string, endDate: string, status: string)

  /** The status the spreadsheet row always carries, whatever the end date. */
  const SheetStatus := "Active"

  /** What a submission did: nothing, or added `record` and produced `row`. */
  datatype Outcome = Rejected | Accepted(record: Record, row: SheetRow)

  /** The list after a submission together with what happened. */
  datatype Submitted = Submitted(users: seq<Record>, outcome: Outcome)

  /** The form carries both required fields. */
  predicate IsComplete(form: Form) {
    form.name != [] && form.endDate != []
  }

  /** Submitting the form at time `now` (milliseconds, the new id) with
      ISO timestamp `timestamp`: an incomplete form changes nothing; a
      complete one appends a record built from the form and emits its row. */
  function Submit(users: seq<Record>, form: Form, now: int, timestamp: string): (r: Submitted)
    ensures r.outcome.Rejected? <==> form.name == [] || form.endDate == []
    ensures r.outcome.Rejected? ==> r.users == users
    ensures r.outcome.Accepted? ==>
      && |r.users| == |users| + 1
      && r.users[..|users|] == users
      && r.users[|users|] == r.outcome.record
    ensures r.outcome.Accepted? ==>
      var rec := r.outcome.record;
      && rec.id == now
      && rec.name == form.name && rec.service == form.service
      && rec.startDate == form.startDate && rec.endDate == form.endDate
    ensures r.outcome.Accepted? ==>
      var row := r.outcome.row;
      && row.timestamp == timestamp
      && row.name == form.name && row.service == form.service
      && row.startDate == form.startDate && row.endDate == form.endDate
      && row.status == SheetStatus
  {
    if !IsComplete(form) then
      Submitted(users, Rejected)
    else
      var rec := Record(now, form.name, form.service, form.startDate, form.endDate);
      var row := SheetRow(timestamp, form.name, form.service, form.startDate, form.endDate, SheetStatus);
      Submitted(users + [rec], Accepted(rec, row))
  }

  /** Deleting every record whose id is `id`; all other records stay, in
      their order and with their multiplicity. */
  function Delete(users: seq<Record>, id: int): (r: seq<Record>)
    ensures forall i :: 0 <= i < |r| ==> r[i].id != id
    ensures forall u: Record {:trigger u in r} :: u in r <==> u in users && u.id != id
    ensures forall u: Record {:trigger multiset(r)[u]} :: u.id != id ==> multiset(r)[u] == multiset(users)[u]
    ensures IsSubsequence(r, users)
    ensures |r| <= |users|
    ensures (forall i :: 0 <= i < |users| ==> users[i].id != id) <==> r == users
  {
    var r := Filter(users, (u: Record) => u.id != id);
    assert forall i :: 0 <= i < |r| ==> r[i] in r;
    assert r == users ==> forall i :: 0 <= i < |users| ==> users[i].id != id;
    r
  }

  /** Deleting twice is deleting once. */
  lemma DeleteIdempotent(users: seq<Record>, id: int)
    ensures Delete(Delete(users, id), id) == Delete(users, id)
  {
  }

  /** The order of two deletions does not matter: both remove exactly the
      records carrying either id. */
  lemma DeleteCommutes(users: seq<Record>, a: int, b: int)
    ensures Delete(Delete(users, a), b) == Delete(Delete(users, b), a)
  {
    var pa: Record -> bool := (u: Record) => u.id != a;
    var pb: Record -> bool := (u: Record) => u.id != b;
    var both: Record -> bool := (u: Record) => u.id != a && u.id != b;
    FilterFilter(users, pa, pb, both);
    FilterFilter(users, pb, pa, both);
  }

  /** Deleting the id of a freshly added record restores the list, provided
      no earlier record happened to share that id. */
  lemma SubmitThenDelete(users: seq<Record>, form: Form, now: int, timestamp: string)
    requires IsComplete(form)
    requires forall i :: 0 <= i < |users| ==> users[i].id != now
    ensures Delete(Submit(users, form, now, timestamp).users, now) == users
  {
    var r := Submit(users, form, now, timestamp);
    FilterConcat(users, [r.outcome.record], (u: Record) => u.id != now);
  }

  /** When an earlier record shares the new record's id, deleting that id
      removes both: ids from the clock are not a key. */
  lemma SubmitThenDeleteCollision(users: seq<Record>, form: Form, now: int, timestamp: string)
    requires IsComplete(form)
    requires exists i :: 0 <= i < |users| && users[i].id == now
    ensures |Delete(Submit(users, form, now, timestamp).users, now)| < |users|
  {
    var r := Submit(users, form, now, timestamp);
    var keep: Record -> bool := (u: Record) => u.id != now;
    FilterConcat(users, [r.outcome.record], keep);
    var i :| 0 <= i < |users| && users[i].id == now;
    assert !keep(users[i]);
    CountAll(users, keep);
    assert Count(users, keep) < |users|;
  }
}
