/** The sheet readers of main.py: `parse_orders` and `parse_tickets` turn the
    rows of a sheet (a header row, then data rows of cell strings) into
    `Order` and `Ticket` records. Python's `int(float(x))` is a parameter
    `parseNum` that either yields an integer or fails. */
module SheetRows {
  import opened Wrappers
  import opened Text
  import opened AllocatorRecords
  import AllocatorHelpers
  import Categories

  type Row = seq<string>

  /** `idx.get(name, -1)` for `idx = {h.strip(): i for i, h in enumerate(header)}`:
      the last column whose stripped header is `name`, or -1. */
  function ColumnOf(header: Row, name: string): (r: int)
    ensures -1 <= r < |header|
    ensures r >= 0 ==> Strip(header[r]) == name
    ensures forall j :: r < j < |header| ==> Strip(header[j]) != name
    decreases |header|
  {
    if header == [] then -1
    else if Strip(header[|header| - 1]) == name then |header| - 1
    else ColumnOf(header[..|header| - 1], name)
  }

  /** `get(row, name)`: the cell of the named column, "" when the column is
      missing or the row is too short. */
  function Cell(header: Row, row: Row, name: string): string {
    var i := ColumnOf(header, name);
    if 0 <= i < |row| then row[i] else ""
  }

  /** The records of the data rows that yield one, in sheet order; the data
      row at position `k` is sheet row `k + 2` (`enumerate(values[1:], start=2)`). */
  function Collect<T>(rows: seq<Row>, parse: (int, Row) -> Option<T>): (r: seq<T>)
    ensures |r| <= |rows|
    decreases |rows|
  {
    if rows == [] then []
    else
      var x := parse(|rows| + 1, rows[|rows| - 1]);
      Collect(rows[..|rows| - 1], parse) + (if x.Some? then [x.value] else [])
  }

  /** The loop over `enumerate(values[1:], start=2)` shared by both readers:
      each row is parsed with its sheet row number and kept when it yields a record. */
  method CollectRows<T>(rows: seq<Row>, parse: (int, Row) -> Option<T>) returns (items: seq<T>)
    ensures items == Collect(rows, parse)
  {
    items := [];
    var k := 0;
    while k < |rows|
      invariant 0 <= k <= |rows|
      invariant items == Collect(rows[..k], parse)
    {
      assert rows[..k + 1][..k] == rows[..k];
      var item := parse(k + 2, rows[k]);
      if item.Some? {
        items := items + [item.value];
      }
      k := k + 1;
    }
    assert rows[..k] == rows;
  }

  lemma {:induction false} CollectFromRows<T>(rows: seq<Row>, parse: (int, Row) -> Option<T>)
    ensures forall x :: x in Collect(rows, parse) <==> exists k :: 0 <= k < |rows| && parse(k + 2, rows[k]) == Some(x)
    decreases |rows|
  {
    if rows != [] {
      var init := rows[..|rows| - 1];
      CollectFromRows(init, parse);
      forall x
        ensures (exists k :: 0 <= k < |rows| && parse(k + 2, rows[k]) == Some(x))
          <==> (exists k :: 0 <= k < |init| && parse(k + 2, init[k]) == Some(x))
               || parse(|rows| + 1, rows[|rows| - 1]) == Some(x)
      {
        if exists k :: 0 <= k < |rows| && parse(k + 2, rows[k]) == Some(x) {
          var k :| 0 <= k < |rows| && parse(k + 2, rows[k]) == Some(x);
          if k < |init| {
            assert init[k] == rows[k];
          }
        }
        if exists k :: 0 <= k < |init| && parse(k + 2, init[k]) == Some(x) {
          var k :| 0 <= k < |init| && parse(k + 2, init[k]) == Some(x);
          assert rows[k] == init[k];
        }
      }
    }
  }

  /** The sheet rows of the tickets strictly increase. */
  predicate RowsIncrease(r: seq<Ticket>) {
    forall i, j :: 0 <= i < j < |r| ==> r[i].idx < r[j].idx
  }

  /** Every ticket is what `parse` makes of the data row its sheet row names. */
  predicate FromOwnRow(rows: seq<Row>, parse: (int, Row) -> Option<Ticket>, r: seq<Ticket>) {
    forall i :: 0 <= i < |r| ==> (2 <= r[i].idx <= |rows| + 1 && parse(r[i].idx, rows[r[i].idx - 2]) == Some(r[i]))
  }

  /** With a parser that stamps each ticket with its sheet row, the rows of the
      collected tickets increase strictly and each ticket is its row's. */
  lemma {:induction false} CollectIndexed(rows: seq<Row>, parse: (int, Row) -> Option<Ticket>)
    requires forall idx, row :: parse(idx, row).Some? ==> parse(idx, row).value.idx == idx
    ensures RowsIncrease(Collect(rows, parse)) && FromOwnRow(rows, parse, Collect(rows, parse))
    decreases |rows|
  {
    if rows != [] {
      var init := rows[..|rows| - 1];
      CollectIndexed(init, parse);
      var r0 := Collect(init, parse);
      var x := parse(|rows| + 1, rows[|rows| - 1]);
      var r := Collect(rows, parse);
      assert r == r0 + (if x.Some? then [x.value] else []);
      forall i | 0 <= i < |r|
        ensures 2 <= r[i].idx <= |rows| + 1 && parse(r[i].idx, rows[r[i].idx - 2]) == Some(r[i])
      {
        if i < |r0| {
          assert r[i] == r0[i];
          assert rows[r0[i].idx - 2] == init[r0[i].idx - 2];
        } else {
          assert r[i] == x.value && x.value.idx == |rows| + 1;
        }
      }
      forall i, j | 0 <= i < j < |r|
        ensures r[i].idx < r[j].idx
      {
        if j < |r0| {
          assert r[i] == r0[i] && r[j] == r0[j];
        } else {
          assert r[i] == r0[i] && r[i].idx <= |rows|;
        }
      }
    }
  }

  // ---------------------------------------------------------------------------
  // parse_orders

  /** One data row of the orders sheet; `None` when the order number is blank. */
  function OrderOf(header: Row, row: Row, parseNum: string -> Option<int>): (r: Option<Order>)
    ensures r.Some? <==> Strip(Cell(header, row, "Order number")) != []
    ensures r.Some? ==> r.value.orderNumber == Strip(Cell(header, row, "Order number"))
    ensures r.Some? ==> r.value.seating != [] && NoEdgeSpace(r.value.orderNumber)
    ensures r.Some? && parseNum(Strip(Cell(header, row, "Qty"))).None? ==> r.value.qty == 1
    ensures r.Some? && Strip(Cell(header, row, "Seating Arrangements")) == [] ==>
              r.value.seating == AllocatorHelpers.DefaultSeating
    ensures r.Some? && parseNum(Strip(Cell(header, row, "Qty"))).Some? ==>
              r.value.qty == parseNum(Strip(Cell(header, row, "Qty"))).value
    ensures r.Some? && Strip(Cell(header, row, "Seating Arrangements")) != [] ==>
              r.value.seating == Strip(Cell(header, row, "Seating Arrangements"))
    ensures r.Some? ==> r.value.source == Categories.NormalizeSource(Strip(Cell(header, row, "source")))
                        && r.value.eventName == Strip(Cell(header, row, "event name"))
                        && r.value.category == Strip(Cell(header, row, "Category / Section"))
  {
    var orderNumber := Strip(Cell(header, row, "Order number"));
    if orderNumber == [] then None
    else
      StripFacts(Cell(header, row, "Order number"));
      var source := Categories.NormalizeSource(Strip(Cell(header, row, "source")));
      var eventName := Strip(Cell(header, row, "event name"));
      var category := Strip(Cell(header, row, "Category / Section"));
      var qty := match parseNum(Strip(Cell(header, row, "Qty"))) case Some(q) => q case None => 1;
      var seatingCell := Strip(Cell(header, row, "Seating Arrangements"));
      var seating := if seatingCell != [] then seatingCell else AllocatorHelpers.DefaultSeating;
      Some(Order(orderNumber, source, eventName, category, qty, seating))
  }

  /** `parse_orders`; `None` where Python raises `IndexError` on a sheet without a header row. */
  function Orders(values: seq<Row>, parseNum: string -> Option<int>): Option<seq<Order>> {
    if values == [] then None else Some(Collect(values[1..], OrderParser(values[0], parseNum)))
  }

  function OrderParser(header: Row, parseNum: string -> Option<int>): (int, Row) -> Option<Order> {
    (idx, row) => OrderOf(header, row, parseNum)
  }

  /** Every order comes from a data row with an order number, and every such row gives one. */
  lemma {:induction false} OrdersFromRows(header: Row, rows: seq<Row>, parseNum: string -> Option<int>)
    ensures forall o :: o in Collect(rows, OrderParser(header, parseNum)) <==>
              exists k :: 0 <= k < |rows| && OrderOf(header, rows[k], parseNum) == Some(o)
  {
    CollectFromRows(rows, OrderParser(header, parseNum));
  }

  /** `parse_orders`. */
  method ParseOrders(values: seq<Row>, parseNum: string -> Option<int>) returns (r: Option<seq<Order>>)
    ensures r == Orders(values, parseNum)
  {
    if values == [] {
      return None;
    }
    var orders := CollectRows(values[1..], OrderParser(values[0], parseNum));
    r := Some(orders);
  }

  // ---------------------------------------------------------------------------
  // parse_tickets

  /** Column K, read by position: the marker of an assigned seat. */
  const AssignedColumn: nat := 10

  function AssignedCell(row: Row): string {
    if |row| > AssignedColumn then Strip(row[AssignedColumn]) else ""
  }

  /** The data row at sheet row `idx`; `None` when game, block, row or seat is
      blank or row or seat does not parse as a number. */
  function TicketOf(header: Row, row: Row, idx: int, parseNum: string -> Option<int>): (r: Option<Ticket>)
    ensures r.Some? ==> r.value.idx == idx && r.value.assignedTo == AssignedCell(row)
    ensures r.Some? ==> r.value.game != [] && r.value.block != [] && NoEdgeSpace(r.value.block)
    ensures r.Some? ==> (parseNum(Strip(Cell(header, row, "row"))) == Some(r.value.row)
                         && parseNum(Strip(Cell(header, row, "seat"))) == Some(r.value.seat))
    ensures r.Some? ==> r.value.game == Strip(Cell(header, row, "game"))
                        && r.value.block == Strip(Cell(header, row, "block"))
    ensures r.Some? <==>
              Strip(Cell(header, row, "game")) != [] && Strip(Cell(header, row, "block")) != []
              && Strip(Cell(header, row, "row")) != [] && Strip(Cell(header, row, "seat")) != []
              && parseNum(Strip(Cell(header, row, "row"))).Some?
              && parseNum(Strip(Cell(header, row, "seat"))).Some?
  {
    var game := Strip(Cell(header, row, "game"));
    var block := Strip(Cell(header, row, "block"));
    var rowText := Strip(Cell(header, row, "row"));
    var seatText := Strip(Cell(header, row, "seat"));
    var assignedTo := AssignedCell(row);
    if game == [] || block == [] || rowText == [] || seatText == [] then None
    else
      match (parseNum(rowText), parseNum(seatText))
      case (Some(rowNum), Some(seatNum)) =>
        StripFacts(Cell(header, row, "block"));
        Some(Ticket(idx, game, Strip(block), rowNum, seatNum, assignedTo))
      case _ => None
  }

  function TicketParser(header: Row, parseNum: string -> Option<int>): (int, Row) -> Option<Ticket> {
    (idx, row) => TicketOf(header, row, idx, parseNum)
  }

  /** `parse_tickets`; `None` where Python raises `IndexError` on a sheet without a header row. */
  function Tickets(values: seq<Row>, parseNum: string -> Option<int>): Option<seq<Ticket>> {
    if values == [] then None else Some(Collect(values[1..], TicketParser(values[0], parseNum)))
  }

  /** A ticket carries the sheet row it was read from. */
  lemma TicketParserStamps(header: Row, parseNum: string -> Option<int>)
    ensures forall idx, row :: TicketParser(header, parseNum)(idx, row).Some? ==>
              TicketParser(header, parseNum)(idx, row).value.idx == idx
  {
    forall idx, row | TicketParser(header, parseNum)(idx, row).Some?
      ensures TicketParser(header, parseNum)(idx, row).value.idx == idx
    {
      assert TicketParser(header, parseNum)(idx, row) == TicketOf(header, row, idx, parseNum);
    }
  }

  /** The sheet rows of the tickets strictly increase from 2 up and every
      ticket is its own data row's. */
  lemma {:induction false} TicketsInRowOrder(header: Row, rows: seq<Row>, parseNum: string -> Option<int>)
    ensures RowsIncrease(Collect(rows, TicketParser(header, parseNum)))
    ensures FromOwnRow(rows, TicketParser(header, parseNum), Collect(rows, TicketParser(header, parseNum)))
  {
    TicketParserStamps(header, parseNum);
    CollectIndexed(rows, TicketParser(header, parseNum));
  }

  /** A ticket is read from every data row that yields one, and from no other. */
  lemma {:induction false} TicketsFromRows(header: Row, rows: seq<Row>, parseNum: string -> Option<int>)
    ensures forall t :: t in Collect(rows, TicketParser(header, parseNum)) <==>
              exists k :: 0 <= k < |rows| && TicketParser(header, parseNum)(k + 2, rows[k]) == Some(t)
  {
    CollectFromRows(rows, TicketParser(header, parseNum));
  }

  /** `parse_tickets`. */
  method ParseTickets(values: seq<Row>, parseNum: string -> Option<int>) returns (r: Option<seq<Ticket>>)
    ensures r == Tickets(values, parseNum)
  {
    if values == [] {
      return None;
    }
    var tickets := CollectRows(values[1..], TicketParser(values[0], parseNum));
    r := Some(tickets);
  }
}
