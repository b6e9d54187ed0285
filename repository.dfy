/** The transaction store: a table of transaction records keyed by `id`,
    with insert, lookup, overwrite and the same-day approved total of an
    account. The database behind it is modelled as the sequence of rows. */
module Repository {
  import opened Domain

  /** No two rows share a primary key. */
  ghost predicate UniqueIds(rows: seq<Transaction>) {
    forall i, j :: 0 <= i < j < |rows| ==> rows[i].id != rows[j].id
  }

  /** Position of the row whose primary key is `id`, if any. */
  function IndexOf(rows: seq<Transaction>, id: Guid): (r: Option<nat>)
    ensures r.Some? ==> r.value < |rows| && rows[r.value].id == id
    ensures r.None? ==> forall i :: 0 <= i < |rows| ==> rows[i].id != id
  {
    if rows == [] then None
    else if rows[0].id == id then Some(0)
    else match IndexOf(rows[1..], id)
      case None => None
      case Some(k) => Some(k + 1)
  }

  /** With unique keys the row found is the only one carrying the key. */
  lemma IndexOfUnique(rows: seq<Transaction>, id: Guid, i: nat)
    requires UniqueIds(rows)
    requires i < |rows| && rows[i].id == id
    ensures IndexOf(rows, id) == Some(i)
  {
  }

  /** `createdAt` lies in the half-open window `[date.Date, date.Date.AddDays(1))`. */
  predicate InDay(createdAt: DateTime, date: DateTime) {
    var startOfDay := StartOfDay(date);
    var endOfDay := AddDays(startOfDay, 1);
    Ticks(startOfDay) <= Ticks(createdAt) && Ticks(createdAt) < Ticks(endOfDay)
  }

  /** The filter of the daily query: same source account, same day, approved. */
  predicate CountsToward(t: Transaction, account: Guid, date: DateTime) {
    t.sourceAccountId == account && InDay(t.createdAt, date) && t.status == Approved
  }

  function Contribution(t: Transaction, account: Guid, date: DateTime): Money {
    if CountsToward(t, account, date) then t.value else 0.0
  }

  /** Sum of `value` over the rows the daily query keeps; 0 when it keeps none. */
  function DailyTotal(rows: seq<Transaction>, account: Guid, date: DateTime): Money {
    if rows == [] then 0.0
    else Contribution(rows[0], account, date) + DailyTotal(rows[1..], account, date)
  }

  /** The window holds exactly the instants of the calendar day of `date`:
      its midnight is inside and the next midnight is outside. */
  lemma InDayIffSameDay(createdAt: DateTime, date: DateTime)
    ensures InDay(createdAt, date) <==> createdAt.day == date.day
  {
    var c, d := createdAt.day, date.day;
    if c < d {
      assert Ticks(createdAt) < (c + 1) * TicksPerDay <= d * TicksPerDay;
    } else if c > d {
      assert Ticks(createdAt) >= c * TicksPerDay >= (d + 1) * TicksPerDay;
    }
  }

  /** The rows the query's filter keeps, in table order. */
  function Kept(rows: seq<Transaction>, account: Guid, date: DateTime): (r: seq<Transaction>)
    ensures forall i :: 0 <= i < |r| ==> CountsToward(r[i], account, date)
  {
    if rows == [] then []
    else (if CountsToward(rows[0], account, date) then [rows[0]] else []) + Kept(rows[1..], account, date)
  }

  /** The sum of the values of `ts`. */
  function SumValues(ts: seq<Transaction>): Money {
    if ts == [] then 0.0 else ts[0].value + SumValues(ts[1..])
  }

  /** Summing the kept rows gives the daily total. */
  lemma {:induction false} KeptSum(rows: seq<Transaction>, account: Guid, date: DateTime)
    ensures SumValues(Kept(rows, account, date)) == DailyTotal(rows, account, date)
  {
    if rows != [] {
      KeptSum(rows[1..], account, date);
      var rest := Kept(rows[1..], account, date);
      if CountsToward(rows[0], account, date) {
        assert ([rows[0]] + rest)[1..] == rest;
      } else {
        assert [] + rest == rest;
      }
    }
  }

  /** When no row passes the filter the total is zero. */
  lemma {:induction false} DailyTotalZero(rows: seq<Transaction>, account: Guid, date: DateTime)
    requires forall i :: 0 <= i < |rows| ==> !CountsToward(rows[i], account, date)
    ensures DailyTotal(rows, account, date) == 0.0
  {
    if rows != [] {
      DailyTotalZero(rows[1..], account, date);
    }
  }

  /** Adding a row changes the total by that row's contribution only. */
  lemma {:induction false} DailyTotalAppend(rows: seq<Transaction>, t: Transaction, account: Guid, date: DateTime)
    ensures DailyTotal(rows + [t], account, date) == DailyTotal(rows, account, date) + Contribution(t, account, date)
  {
    if rows == [] {
      assert rows + [t] == [t];
    } else {
      assert (rows + [t])[1..] == rows[1..] + [t];
      DailyTotalAppend(rows[1..], t, account, date);
    }
  }

  /** Overwriting one row changes the total by the difference of the two rows' contributions. */
  lemma {:induction false} DailyTotalReplace(rows: seq<Transaction>, i: nat, t: Transaction, account: Guid, date: DateTime)
    requires i < |rows|
    ensures DailyTotal(rows[i := t], account, date)
         == DailyTotal(rows, account, date) - Contribution(rows[i], account, date) + Contribution(t, account, date)
  {
    if i == 0 {
      assert rows[i := t][1..] == rows[1..];
    } else {
      assert rows[i := t][1..] == rows[1..][i - 1 := t];
      DailyTotalReplace(rows[1..], i - 1, t, account, date);
    }
  }

  /** The repository test's fixture: two approved rows of the account today
      (100 and 50), a pending one today, an approved one yesterday and an
      approved one of another account; the total for today is 150. */
  lemma DailyTotalFixture(account: Guid, other: Guid, today: nat, a: Guid, b: Guid, c: Guid, d: Guid, e: Guid)
    requires other != account && today >= 1
    ensures
      var hour := TicksPerDay / 24;
      var rows := [
        Transaction(a, a, account, EmptyGuid, 0, 100.0, DateTime(today, hour), Approved),
        Transaction(b, b, account, EmptyGuid, 0, 50.0, DateTime(today, 2 * hour), Approved),
        Transaction(c, c, account, EmptyGuid, 0, 200.0, DateTime(today, 3 * hour), Pending),
        Transaction(d, d, account, EmptyGuid, 0, 300.0, DateTime(today - 1, 0), Approved),
        Transaction(e, e, other, EmptyGuid, 0, 400.0, DateTime(today, 4 * hour), Approved)];
      DailyTotal(rows, account, DateTime(today, 0)) == 150.0
  {
    var hour := TicksPerDay / 24;
    var date := DateTime(today, 0);
    var rows := [
      Transaction(a, a, account, EmptyGuid, 0, 100.0, DateTime(today, hour), Approved),
      Transaction(b, b, account, EmptyGuid, 0, 50.0, DateTime(today, 2 * hour), Approved),
      Transaction(c, c, account, EmptyGuid, 0, 200.0, DateTime(today, 3 * hour), Pending),
      Transaction(d, d, account, EmptyGuid, 0, 300.0, DateTime(today - 1, 0), Approved),
      Transaction(e, e, other, EmptyGuid, 0, 400.0, DateTime(today, 4 * hour), Approved)];
    InDayIffSameDay(rows[0].createdAt, date);
    InDayIffSameDay(rows[1].createdAt, date);
    InDayIffSameDay(rows[3].createdAt, date);
    assert DailyTotal(rows[4..], account, date) == 0.0 by {
      assert rows[4..][1..] == [];
    }
    assert DailyTotal(rows[3..], account, date) == 0.0 by {
      assert rows[3..][1..] == rows[4..];
    }
    assert DailyTotal(rows[2..], account, date) == 0.0 by {
      assert rows[2..][1..] == rows[3..];
    }
    assert DailyTotal(rows[1..], account, date) == 50.0 by {
      assert rows[1..][1..] == rows[2..];
    }
  }

  /** The store. `rows` is the table; `Valid` is its primary-key constraint. */
  class TransactionRepository {
    var rows: seq<Transaction>

    ghost predicate Valid()
      reads this
    {
      UniqueIds(rows)
    }

    constructor ()
      ensures Valid() && rows == []
    {
      rows := [];
    }

    /** `AddAsync`: inserts the record; a second record with the same primary
        key is refused when the change is saved, and nothing is stored. */
    method Add(t: Transaction) returns (r: Outcome)
      requires Valid()
      modifies this
      ensures Valid()
      ensures old(IndexOf(rows, t.id)).Some? ==> r == Fail(DuplicateKey) && rows == old(rows)
      ensures old(IndexOf(rows, t.id)).None? ==> r == Pass && rows == old(rows) + [t]
      ensures r == Pass ==> GetById(t.id) == Ok(t)
    {
      if IndexOf(rows, t.id).Some? {
        return Fail(DuplicateKey);
      }
      rows := rows + [t];
      r := Pass;
      IndexOfUnique(rows, t.id, |rows| - 1);
    }

    /** `GetByIdAsync`: the record with primary key `id`, or `KeyNotFoundException`. */
    function GetById(id: Guid): (r: Result<Transaction>)
      reads this
      ensures r.Ok? ==> r.value.id == id && r.value in rows
      ensures r.Err? ==> r.error == KeyNotFound && forall i :: 0 <= i < |rows| ==> rows[i].id != id
    {
      match IndexOf(rows, id)
      case Some(i) => Ok(rows[i])
      case None => Err(KeyNotFound)
    }

    /** `UpdateAsync`: overwrites the record with the same primary key; when
        there is none, saving affects no row and fails. */
    method Update(t: Transaction) returns (r: Outcome)
      requires Valid()
      modifies this
      ensures Valid()
      ensures old(IndexOf(rows, t.id)).None? ==> r == Fail(ConcurrencyConflict) && rows == old(rows)
      ensures old(IndexOf(rows, t.id)).Some? ==>
        r == Pass && rows == old(rows)[old(IndexOf(rows, t.id)).value := t]
      ensures r == Pass ==> GetById(t.id) == Ok(t)
      ensures forall id :: id != t.id ==> GetById(id) == old(GetById(id))
    {
      match IndexOf(rows, t.id)
      case None =>
        r := Fail(ConcurrencyConflict);
      case Some(i) =>
        ghost var before := rows;
        rows := rows[i := t];
        r := Pass;
        assert UniqueIds(rows) by {
          forall j, k | 0 <= j < k < |rows| ensures rows[j].id != rows[k].id {
            assert before[j].id == rows[j].id && before[k].id == rows[k].id;
          }
        }
        IndexOfUnique(rows, t.id, i);
        forall id | id != t.id ensures GetById(id) == old(GetById(id)) {
          match IndexOf(before, id)
          case Some(j) => IndexOfUnique(rows, id, j);
          case None =>
        }
    }

    /** `GetDailyAccumulatedAsync`: the rows the filter keeps are summed; a
        sum over no rows is null, which the query turns into 0. The result is
        the daily total the properties above are stated about. */
    function GetDailyAccumulated(account: Guid, date: DateTime): (r: Money)
      reads this
      ensures r == DailyTotal(rows, account, date)
    {
      KeptSum(rows, account, date);
      var kept := Kept(rows, account, date);
      if kept == [] then 0.0 else SumValues(kept)
    }
  }
}
