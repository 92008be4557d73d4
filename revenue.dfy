/**
 * The sale recorder (`analysis(amount)`): the revenue table keeps one row
 * per calendar date; a sale adds its amount to today's row, creating the row
 * when the day has none yet.
 */
module DailyRevenue {
  import opened Wrappers
  import opened Dates

  /** What a row adds to the revenue: a missing amount counts as 0 (`null + n` is `n`). */
  function Amount(v: Option<int>): int {
    v.GetOr(0)
  }

  /** The table as it is after a sale of `amount` on `today` has been written. */
  function Recorded(rows: map<Date, Option<int>>, today: Date, amount: int): (r: map<Date, Option<int>>)
    ensures r.Keys == rows.Keys + {today}
    ensures today in rows ==> r[today] == Some(Amount(rows[today]) + amount)
    ensures today !in rows ==> r[today] == Some(amount)
    ensures forall d :: d in rows && d != today ==> r[d] == rows[d]
  {
    if today in rows then rows[today := Some(Amount(rows[today]) + amount)]
    else rows[today := Some(amount)]
  }

  /** Some date of a non-empty table. */
  ghost function Pick(rows: map<Date, Option<int>>): (d: Date)
    requires rows != map[]
    ensures d in rows
  {
    var d :| d in rows; d
  }

  /** The revenue of all the rows of the table. */
  ghost function TableRevenue(rows: map<Date, Option<int>>): int
    decreases |rows|
  {
    if rows == map[] then 0
    else
      var d := Pick(rows);
      Amount(rows[d]) + TableRevenue(rows - {d})
  }

  /** Any row can be taken out of the sum first. */
  lemma {:induction false} TableRevenueRemove(rows: map<Date, Option<int>>, k: Date)
    requires k in rows
    ensures TableRevenue(rows) == Amount(rows[k]) + TableRevenue(rows - {k})
    decreases |rows|
  {
    var d := Pick(rows);
    if d != k {
      var without := rows - {d};
      assert |without| < |rows| by {
        assert without.Keys == rows.Keys - {d} && d in rows.Keys;
      }
      TableRevenueRemove(without, k);
      var rest := rows - {k};
      assert |rest| < |rows| by {
        assert rest.Keys == rows.Keys - {k} && k in rows.Keys;
      }
      TableRevenueRemove(rest, d);
      assert without - {k} == rest - {d};
    }
  }

  /** A sale adds exactly its amount to the revenue of the table. */
  lemma SaleAddsAmount(rows: map<Date, Option<int>>, today: Date, amount: int)
    ensures TableRevenue(Recorded(rows, today, amount)) == TableRevenue(rows) + amount
  {
    var r := Recorded(rows, today, amount);
    TableRevenueRemove(r, today);
    assert r - {today} == rows - {today};
    if today in rows {
      TableRevenueRemove(rows, today);
    } else {
      assert rows - {today} == rows;
    }
  }

  /** Two sales on one day leave the table as one sale of their sum would. */
  lemma SalesAccumulate(rows: map<Date, Option<int>>, today: Date, a: int, b: int)
    ensures Recorded(Recorded(rows, today, a), today, b) == Recorded(rows, today, a + b)
  {
  }

  /** The `analysis` table as the sale recorder sees it. */
  class RevenueTable {
    var rows: map<Date, Option<int>>

    constructor (initial: map<Date, Option<int>>)
      ensures rows == initial
    {
      rows := initial;
    }

    /**
     * `analysis(amount)`, with today's date in India (`toLocaleDateString("en-CA",
     * { timeZone: "Asia/Kolkata" })`) passed as `today`, and the outcomes of the
     * read and of the write passed as `fetchFailed` and `writeFailed`. A failed
     * read writes nothing; otherwise today's row is updated to its amount plus
     * `amount`, or inserted with `amount`; a failed write leaves the table as it was.
     */
    method RecordSale(today: Date, amount: int, fetchFailed: bool, writeFailed: bool)
      modifies this
      ensures fetchFailed || writeFailed ==> rows == old(rows)
      ensures !fetchFailed && !writeFailed ==> rows == Recorded(old(rows), today, amount)
    {
      if fetchFailed {
        return;
      }
      if today in rows {
        var existingRow := rows[today];
        if !writeFailed {
          rows := rows[today := Some(Amount(existingRow) + amount)];
        }
      } else {
        if !writeFailed {
          rows := rows[today := Some(amount)];
        }
      }
    }
  }
}
