/**
 * The order routes: normalising a tracking number, turning a packing-status
 * request into the ordered list of writes it commits plus the Slack notices
 * it sends afterwards, grouping sales rows by order date and standard SKU,
 * and the two tab-separated reports.
 *
 * Database results are input sequences, the current time is the 14-character
 * stamp `curDttm`, and the transaction's outcome is a boolean parameter.
 */
module Packing {
  import opened JsText
  import opened Datetime

  // ---------------------------------------------------------------------
  // Tracking number
  // ---------------------------------------------------------------------

  function Zeros(n: nat): (r: string)
    ensures |r| == n && forall i :: 0 <= i < n ==> r[i] == '0'
  {
    seq(n, _ => '0')
  }

  /** `` `0000000000000000000000${trackingNo || ''}`.substr(-22) ``: always 22
      characters; a shorter number is left-padded with '0', a longer one keeps its
      last 22 characters, and a missing one becomes 22 zeros. */
  function NormalizeTrackingNo(trackingNo: Option<string>): (r: string)
    ensures |r| == 22
    ensures |OrEmpty(trackingNo)| <= 22 ==> r == Zeros(22 - |OrEmpty(trackingNo)|) + OrEmpty(trackingNo)
    ensures |OrEmpty(trackingNo)| >= 22 ==> r == OrEmpty(trackingNo)[|OrEmpty(trackingNo)| - 22..]
    ensures trackingNo.None? ==> r == Zeros(22)
  {
    var t := OrEmpty(trackingNo);
    var s := Zeros(22) + t;
    SliceFromTail(s, 22);
    assert s[|s| - 22..] == if |t| <= 22 then Zeros(22 - |t|) + t else t[|t| - 22..];
    SliceFrom(s, -22)
  }

  // ---------------------------------------------------------------------
  // Packing status update
  // ---------------------------------------------------------------------

  /** One entry of ORDER_LIST in a packing request. */
  datatype PackingItem = PackingItem(
    channelOrderNo: string, marketId: int, listingSku: string,
    noItemYn: Option<string>, tagChangeYn: Option<string>, unitQty: int)

  /** The body of a packing-status request; ORDER_LIST may be absent. */
  datatype PackingRequest = PackingRequest(
    completeYn: Option<string>, holdYn: Option<string>,
    channelOrderNo: string, marketId: int, employeeId: Option<string>,
    orderList: Option<seq<PackingItem>>)

  /** A write the transaction runs; `None` stands for SQL NULL. */
  datatype WriteOp =
    | UpdateOrderStatus(orderNo: string, marketId: int, shippingStatus: string,
                        procDt: string, procTm: string, employeeId: Option<string>)
    | UpdateOrderItemStatus(orderNo: string, marketId: int, listingSku: string,
                            noItemYn: Option<string>, tagChangeYn: Option<string>)

  /** An entry of the "no item" or "tag change" list. */
  datatype Notice = Notice(sku: string, marketId: int, orderNo: string, orderQty: int)

  /** Either the code-300 answer (no transaction), or the writes and the two notice lists. */
  datatype PackingPlan =
    | Rejected(code: int)
    | Plan(ops: seq<WriteOp>, noItem: seq<Notice>, tagChange: seq<Notice>)

  datatype Flag = NoItemFlag | TagChangeFlag

  /** `"Y" === v`. */
  predicate IsY(v: Option<string>) { v == Some("Y") }

  /** The new SHIPPING_STATUS: "01" when COMPLETE_YN is 'Y' (which wins), else "02"
      when HOLD_YN is 'Y', else none. */
  function ShippingStatus(req: PackingRequest): (r: Option<string>)
    ensures r == Some("01") <==> IsY(req.completeYn)
    ensures r == Some("02") <==> !IsY(req.completeYn) && IsY(req.holdYn)
    ensures r.None? <==> !IsY(req.completeYn) && !IsY(req.holdYn)
  {
    if IsY(req.completeYn) then Some("01") else if IsY(req.holdYn) then Some("02") else None
  }

  /** The order-status write: PROC_DT is the first 8 characters of the stamp, PROC_TM
      the last 6, and a falsy EMPLOYEE_ID becomes NULL. */
  function StatusUpdate(req: PackingRequest, status: string, curDttm: string): WriteOp {
    UpdateOrderStatus(req.channelOrderNo, req.marketId, status,
                      Slice(curDttm, 0, 8), SliceFrom(curDttm, -6),
                      if Truthy(req.employeeId) then req.employeeId else None)
  }

  function ItemUpdate(item: PackingItem): WriteOp {
    UpdateOrderItemStatus(item.channelOrderNo, item.marketId, item.listingSku, item.noItemYn, item.tagChangeYn)
  }

  /** One item write per entry, in input order. */
  function ItemUpdates(items: seq<PackingItem>): seq<WriteOp> {
    if items == [] then [] else ItemUpdates(items[..|items| - 1]) + [ItemUpdate(items[|items| - 1])]
  }

  predicate Flagged(item: PackingItem, flag: Flag) {
    if flag == NoItemFlag then IsY(item.noItemYn) else IsY(item.tagChangeYn)
  }

  function NoticeOf(item: PackingItem): Notice {
    Notice(item.listingSku, item.marketId, item.channelOrderNo, item.unitQty)
  }

  /** The notices of the entries carrying the flag, in input order. */
  function Notices(items: seq<PackingItem>, flag: Flag): seq<Notice> {
    if items == [] then []
    else
      var last := items[|items| - 1];
      Notices(items[..|items| - 1], flag) + (if Flagged(last, flag) then [NoticeOf(last)] else [])
  }

  function Items(req: PackingRequest): seq<PackingItem> {
    if req.orderList.Some? then req.orderList.value else []
  }

  /** `update_packing_stat` up to the transaction: the status write, then one item
      write per ORDER_LIST entry in input order, while the flagged entries are
      collected into the "no item" and "tag change" lists. Neither status flag set
      gives code 300 and nothing to run. */
  method PlanPackingUpdate(req: PackingRequest, curDttm: string) returns (plan: PackingPlan)
    ensures plan.Rejected? <==> ShippingStatus(req).None?
    ensures plan.Rejected? ==> plan.code == 300
    ensures plan.Plan? ==>
      plan.ops == [StatusUpdate(req, ShippingStatus(req).value, curDttm)] + ItemUpdates(Items(req)) &&
      plan.noItem == Notices(Items(req), NoItemFlag) &&
      plan.tagChange == Notices(Items(req), TagChangeFlag)
  {
    var ops: seq<WriteOp>;
    if IsY(req.completeYn) {
      ops := [StatusUpdate(req, "01", curDttm)];
    } else if IsY(req.holdYn) {
      ops := [StatusUpdate(req, "02", curDttm)];
    } else {
      return Rejected(300);
    }
    ghost var head := ops;
    var noItem: seq<Notice> := [];
    var tagChange: seq<Notice> := [];
    if req.orderList.Some? {
      var list := req.orderList.value;
      var i := 0;
      while i < |list|
        invariant 0 <= i <= |list|
        invariant ops == head + ItemUpdates(list[..i])
        invariant noItem == Notices(list[..i], NoItemFlag)
        invariant tagChange == Notices(list[..i], TagChangeFlag)
      {
        var order := list[i];
        assert list[..i + 1][..i] == list[..i];
        ops := ops + [ItemUpdate(order)];
        if IsY(order.noItemYn) {
          noItem := noItem + [NoticeOf(order)];
        }
        if IsY(order.tagChangeYn) {
          tagChange := tagChange + [NoticeOf(order)];
        }
        i := i + 1;
      }
      assert list[..|list|] == list;
    }
    plan := Plan(ops, noItem, tagChange);
  }

  /** The item writes follow the entries one for one. */
  lemma {:induction false} ItemUpdatesAt(items: seq<PackingItem>)
    ensures |ItemUpdates(items)| == |items|
    ensures forall i :: 0 <= i < |items| ==> ItemUpdates(items)[i] == ItemUpdate(items[i])
  {
    if items != [] {
      ItemUpdatesAt(items[..|items| - 1]);
    }
  }

  /** The plan runs 1 + |ORDER_LIST| writes (1 when ORDER_LIST is absent), the status
      write first. */
  lemma PlanLength(req: PackingRequest, curDttm: string)
    requires ShippingStatus(req).Some?
    ensures var ops := [StatusUpdate(req, ShippingStatus(req).value, curDttm)] + ItemUpdates(Items(req));
      |ops| == 1 + |Items(req)| && ops[0].UpdateOrderStatus? &&
      forall i :: 1 <= i < |ops| ==> ops[i] == ItemUpdate(Items(req)[i - 1])
  {
    ItemUpdatesAt(Items(req));
  }

  /** For a 14-character stamp, PROC_DT and PROC_TM split it in two. */
  lemma StatusStamp(req: PackingRequest, status: string, curDttm: string)
    requires |curDttm| == 14
    ensures var op := StatusUpdate(req, status, curDttm);
      |op.procDt| == 8 && |op.procTm| == 6 && op.procDt + op.procTm == curDttm
  {
    SliceFromTail(curDttm, 6);
  }

  /** Collecting the notices keeps input order: the notices of `a + b` are those of
      `a` followed by those of `b`. */
  lemma {:induction false} NoticesAppend(a: seq<PackingItem>, b: seq<PackingItem>, flag: Flag)
    ensures Notices(a + b, flag) == Notices(a, flag) + Notices(b, flag)
  {
    if b == [] {
      assert a + b == a;
    } else {
      var b' := b[..|b| - 1];
      assert (a + b)[..|a + b| - 1] == a + b';
      NoticesAppend(a, b', flag);
    }
  }

  /** A notice is in the list exactly when some entry carries the flag and gives it;
      an entry flagged both ways is in both lists. */
  lemma {:induction false} NoticesMembers(items: seq<PackingItem>, flag: Flag, n: Notice)
    ensures n in Notices(items, flag) <==>
      exists i :: 0 <= i < |items| && Flagged(items[i], flag) && NoticeOf(items[i]) == n
  {
    if items != [] {
      var init := items[..|items| - 1];
      NoticesMembers(init, flag, n);
      if exists i :: 0 <= i < |init| && Flagged(init[i], flag) && NoticeOf(init[i]) == n {
        var i :| 0 <= i < |init| && Flagged(init[i], flag) && NoticeOf(init[i]) == n;
        assert items[i] == init[i];
      }
      if exists i :: 0 <= i < |items| && Flagged(items[i], flag) && NoticeOf(items[i]) == n {
        var i :| 0 <= i < |items| && Flagged(items[i], flag) && NoticeOf(items[i]) == n;
        if i < |init| {
          assert init[i] == items[i];
        }
      }
    }
  }

  /** The answer to a packing request, and the Slack messages it sends. */
  datatype PackingResponse = PackingResponse(code: int, sent: seq<string>)

  function NoticeMessage(kind: string, n: Notice, marketplace: string): string {
    kind + " has been indicated for SKU: " + n.sku + " | Marketplace: " + marketplace +
    " | Order #: " + n.orderNo + " | Order Qty: " + IntToString(n.orderQty) + "."
  }

  /** Send one message per notice, in order; looking up a marketplace that is not
      known throws, which stops the sending there. Returns what was sent and whether
      every lookup succeeded. */
  function SendNotices(kind: string, notices: seq<Notice>, marketNames: map<int, string>): (r: (seq<string>, bool))
    ensures |r.0| <= |notices|
    ensures r.1 <==> forall i :: 0 <= i < |notices| ==> notices[i].marketId in marketNames
    ensures r.1 ==> |r.0| == |notices|
    ensures r.1 ==> forall i :: 0 <= i < |notices| ==>
      r.0[i] == NoticeMessage(kind, notices[i], marketNames[notices[i].marketId])
  {
    if notices == [] then ([], true)
    else if notices[0].marketId !in marketNames then ([], false)
    else
      var rest := SendNotices(kind, notices[1..], marketNames);
      assert forall i :: 1 <= i < |notices| ==> notices[i] == notices[1..][i - 1];
      ([NoticeMessage(kind, notices[0], marketNames[notices[0].marketId])] + rest.0, rest.1)
  }

  /** After the transaction: code 300 when the request was rejected; code 400 and no
      message when the transaction fails; otherwise the "no item" messages, then the
      "tag change" ones, and code 200 unless a marketplace lookup threw (code 400). */
  function RespondToPacking(plan: PackingPlan, committed: bool, marketNames: map<int, string>): PackingResponse {
    match plan
    case Rejected(code) => PackingResponse(code, [])
    case Plan(_, noItem, tagChange) =>
      if !committed then PackingResponse(400, [])
      else
        var a := SendNotices("No Item", noItem, marketNames);
        if !a.1 then PackingResponse(400, a.0)
        else
          var b := SendNotices("Tag Change", tagChange, marketNames);
          PackingResponse(if b.1 then 200 else 400, a.0 + b.0)
  }

  /** Messages go out only after a committed transaction, at most one per notice, and
      when every marketplace is known the answer is 200 with one message per notice. */
  lemma PackingMessages(plan: PackingPlan, committed: bool, marketNames: map<int, string>)
    ensures var r := RespondToPacking(plan, committed, marketNames);
      (plan.Rejected? ==> r.code == plan.code && r.sent == []) &&
      (plan.Plan? && !committed ==> r.code == 400 && r.sent == []) &&
      (plan.Plan? ==> |r.sent| <= |plan.noItem| + |plan.tagChange|) &&
      (plan.Plan? && committed &&
       (forall n :: n in plan.noItem + plan.tagChange ==> n.marketId in marketNames) ==>
         r.code == 200 && |r.sent| == |plan.noItem| + |plan.tagChange|)
  {
    if plan.Plan? && committed && (forall n :: n in plan.noItem + plan.tagChange ==> n.marketId in marketNames) {
      assert forall i :: 0 <= i < |plan.noItem| ==> plan.noItem[i] in plan.noItem + plan.tagChange;
      assert forall i :: 0 <= i < |plan.tagChange| ==> plan.tagChange[i] in plan.noItem + plan.tagChange;
    }
  }

  // ---------------------------------------------------------------------
  // Sales by SKU
  // ---------------------------------------------------------------------

  /** A row of the sales query. */
  datatype SalesRow = SalesRow(
    orderDate: string, stdSku: Option<string>, listingSku: Option<string>,
    productName: Option<string>, orderQty: Option<int>, inventoryYn: Option<string>, marketId: int)

  /** The per-(date, SKU) object `toSalesBySKUFormat` builds; `byMarket` holds the
      numeric properties keyed by MARKET_ID. */
  datatype SalesItem = SalesItem(
    stdSku: string, orderDate: string, listingSku: string, productName: string,
    totalOrderCnt: int, inventoryYn: Option<string>, byMarket: map<int, int>)

  /** A fresh `{}`: every field reads as falsy. */
  const NewItem := SalesItem("", "", "", "", 0, None, map[])

  /** `row.ORDER_QTY || 0`. */
  function Qty(row: SalesRow): int {
    if row.orderQty.Some? then row.orderQty.value else 0
  }

  /** The field updates of `toSalesBySKUFormat` for one row. */
  function Absorb(item: SalesItem, row: SalesRow): SalesItem {
    SalesItem(
      OrEmpty(Or(Or(Some(item.stdSku), row.stdSku), row.listingSku)),
      OrEmpty(Or(Some(item.orderDate), Some(row.orderDate))),
      OrEmpty(Or(Some(item.listingSku), row.listingSku)),
      OrEmpty(Or(Some(item.productName), row.productName)),
      item.totalOrderCnt + Qty(row),
      Or(item.inventoryYn, row.inventoryYn),
      item.byMarket[row.marketId := Qty(row)])
  }

  /** One row fills a text field only while it is still empty, so the first
      non-empty value wins; it adds its quantity to the total and sets its own
      market's column to that quantity, leaving the other markets alone. */
  lemma AbsorbFields(item: SalesItem, row: SalesRow)
    ensures var r := Absorb(item, row);
      (item.stdSku != "" ==> r.stdSku == item.stdSku) &&
      (item.stdSku == "" ==> r.stdSku == OrEmpty(Or(row.stdSku, row.listingSku))) &&
      (item.orderDate != "" ==> r.orderDate == item.orderDate) &&
      (item.orderDate == "" ==> r.orderDate == row.orderDate) &&
      (item.listingSku != "" ==> r.listingSku == item.listingSku) &&
      (item.listingSku == "" ==> r.listingSku == OrEmpty(row.listingSku)) &&
      (item.productName != "" ==> r.productName == item.productName) &&
      (item.productName == "" ==> r.productName == OrEmpty(row.productName)) &&
      r.totalOrderCnt == item.totalOrderCnt + Qty(row) &&
      r.byMarket.Keys == item.byMarket.Keys + {row.marketId} &&
      r.byMarket[row.marketId] == Qty(row)
    ensures forall m :: m in item.byMarket && m != row.marketId ==>
      Absorb(item, row).byMarket[m] == item.byMarket[m]
  {
  }

  /** `salesObj`: order date -> (STD_SKU -> item), both maps in insertion order. */
  type SalesTable = JsMap<string, JsMap<Option<string>, SalesItem>>

  ghost predicate ValidTable(t: SalesTable) {
    ValidMap(t) && forall d :: d in t.entries ==> ValidMap(t.entries[d])
  }

  /** One call of `toSalesBySKUFormat`. */
  function AddRow(t: SalesTable, row: SalesRow): (r: SalesTable)
    requires ValidTable(t)
    ensures ValidTable(r)
  {
    var dateSales := if row.orderDate in t.entries then t.entries[row.orderDate] else EmptyMap();
    var item := if row.stdSku in dateSales.entries then dateSales.entries[row.stdSku] else NewItem;
    Set(t, row.orderDate, Set(dateSales, row.stdSku, Absorb(item, row)))
  }

  /** `ret.forEach(toSalesBySKUFormat)` on an empty table. */
  function GroupSales(rows: seq<SalesRow>): (r: SalesTable)
    ensures ValidTable(r)
  {
    if rows == [] then EmptyMap() else AddRow(GroupSales(rows[..|rows| - 1]), rows[|rows| - 1])
  }

  method GroupSalesRows(rows: seq<SalesRow>) returns (salesObj: SalesTable)
    ensures ValidTable(salesObj)
    ensures salesObj == GroupSales(rows)
  {
    salesObj := EmptyMap();
    var i := 0;
    while i < |rows|
      invariant 0 <= i <= |rows|
      invariant salesObj == GroupSales(rows[..i])
    {
      assert rows[..i + 1][..i] == rows[..i];
      var row := rows[i];
      var dateSales := if row.orderDate in salesObj.entries then salesObj.entries[row.orderDate] else EmptyMap();
      var item := if row.stdSku in dateSales.entries then dateSales.entries[row.stdSku] else NewItem;
      item := Absorb(item, row);
      dateSales := Set(dateSales, row.stdSku, item);
      salesObj := Set(salesObj, row.orderDate, dateSales);
      i := i + 1;
    }
    assert rows[..|rows|] == rows;
  }

  predicate InGroup(row: SalesRow, date: string, sku: Option<string>) {
    row.orderDate == date && row.stdSku == sku
  }

  /** The sum of ORDER_QTY (missing counted as 0) over the rows of one group. */
  function GroupQty(rows: seq<SalesRow>, date: string, sku: Option<string>): int {
    if rows == [] then 0
    else
      var last := rows[|rows| - 1];
      GroupQty(rows[..|rows| - 1], date, sku) + (if InGroup(last, date, sku) then Qty(last) else 0)
  }

  /** The quantity of the last row of the group sold on `market`, if any. */
  function LastMarketQty(rows: seq<SalesRow>, date: string, sku: Option<string>, market: int): Option<int> {
    if rows == [] then None
    else
      var last := rows[|rows| - 1];
      if InGroup(last, date, sku) && last.marketId == market then Some(Qty(last))
      else LastMarketQty(rows[..|rows| - 1], date, sku, market)
  }

  predicate HasGroup(t: SalesTable, date: string, sku: Option<string>) {
    date in t.entries && sku in t.entries[date].entries
  }

  /** One row touches only its own group: that group gets the row absorbed (into a
      fresh item if it is new), every other group is left as it was. */
  lemma AddRowGroup(t: SalesTable, row: SalesRow, date: string, sku: Option<string>)
    requires ValidTable(t)
    ensures InGroup(row, date, sku) ==>
      HasGroup(AddRow(t, row), date, sku) &&
      AddRow(t, row).entries[date].entries[sku] ==
        Absorb(if HasGroup(t, date, sku) then t.entries[date].entries[sku] else NewItem, row)
    ensures !InGroup(row, date, sku) ==>
      (HasGroup(AddRow(t, row), date, sku) <==> HasGroup(t, date, sku)) &&
      (HasGroup(t, date, sku) ==> AddRow(t, row).entries[date].entries[sku] == t.entries[date].entries[sku])
  {
  }

  /** The running total of a group after one more row. */
  lemma AddRowTotal(t: SalesTable, row: SalesRow, date: string, sku: Option<string>)
    requires ValidTable(t)
    requires HasGroup(AddRow(t, row), date, sku)
    ensures AddRow(t, row).entries[date].entries[sku].totalOrderCnt ==
      (if HasGroup(t, date, sku) then t.entries[date].entries[sku].totalOrderCnt else 0) +
      (if InGroup(row, date, sku) then Qty(row) else 0)
  {
    AddRowGroup(t, row, date, sku);
  }

  /** One market column of a group after one more row. */
  lemma AddRowMarket(t: SalesTable, row: SalesRow, date: string, sku: Option<string>, market: int)
    requires ValidTable(t)
    requires HasGroup(AddRow(t, row), date, sku)
    ensures var before := if HasGroup(t, date, sku) then t.entries[date].entries[sku].byMarket else map[];
      var after := AddRow(t, row).entries[date].entries[sku].byMarket;
      if InGroup(row, date, sku) && row.marketId == market then market in after && after[market] == Qty(row)
      else (market in after <==> market in before) && (market in after ==> after[market] == before[market])
  {
    AddRowGroup(t, row, date, sku);
  }

  lemma AddRowHasGroup(t: SalesTable, row: SalesRow, date: string, sku: Option<string>)
    requires ValidTable(t)
    ensures HasGroup(AddRow(t, row), date, sku) <==> HasGroup(t, date, sku) || InGroup(row, date, sku)
  {
  }

  /** Rows are grouped by (ORDER_DATE, STD_SKU): a group exists exactly when some row
      has that pair. */
  lemma GroupSalesKeys(rows: seq<SalesRow>, date: string, sku: Option<string>)
    ensures HasGroup(GroupSales(rows), date, sku) <==> exists i :: 0 <= i < |rows| && InGroup(rows[i], date, sku)
  {
    GroupSalesAny(rows, date, sku);
    AnyWhereExists(rows, (row: SalesRow) => InGroup(row, date, sku));
  }

  lemma {:induction false} GroupSalesAny(rows: seq<SalesRow>, date: string, sku: Option<string>)
    ensures HasGroup(GroupSales(rows), date, sku) <==> AnyWhere(rows, (row: SalesRow) => InGroup(row, date, sku))
  {
    if rows != [] {
      GroupSalesAny(rows[..|rows| - 1], date, sku);
      AddRowHasGroup(GroupSales(rows[..|rows| - 1]), rows[|rows| - 1], date, sku);
    }
  }

  /** A group's TOTAL_ORDER_CNT is the sum of its rows' quantities (missing ones count
      as 0). */
  lemma {:induction false} GroupSalesTotal(rows: seq<SalesRow>, date: string, sku: Option<string>)
    requires HasGroup(GroupSales(rows), date, sku)
    ensures GroupSales(rows).entries[date].entries[sku].totalOrderCnt == GroupQty(rows, date, sku)
  {
    var init := rows[..|rows| - 1];
    AddRowTotal(GroupSales(init), rows[|rows| - 1], date, sku);
    if HasGroup(GroupSales(init), date, sku) {
      GroupSalesTotal(init, date, sku);
    } else {
      NoGroupQty(init, date, sku);
    }
  }

  /** A group's market column is set exactly when one of its rows is from that market,
      and holds the quantity of the last such row: later rows overwrite, they do not
      add up. */
  lemma {:induction false} GroupSalesMarket(rows: seq<SalesRow>, date: string, sku: Option<string>, market: int)
    requires HasGroup(GroupSales(rows), date, sku)
    ensures var item := GroupSales(rows).entries[date].entries[sku];
      (market in item.byMarket <==> LastMarketQty(rows, date, sku, market).Some?) &&
      (market in item.byMarket ==> item.byMarket[market] == LastMarketQty(rows, date, sku, market).value)
  {
    var init := rows[..|rows| - 1];
    AddRowMarket(GroupSales(init), rows[|rows| - 1], date, sku, market);
    if HasGroup(GroupSales(init), date, sku) {
      GroupSalesMarket(init, date, sku, market);
    } else {
      NoGroupMarket(init, date, sku, market);
    }
  }

  /** Rows that formed no group contribute no quantity. */
  lemma {:induction false} NoGroupQty(rows: seq<SalesRow>, date: string, sku: Option<string>)
    requires !HasGroup(GroupSales(rows), date, sku)
    ensures GroupQty(rows, date, sku) == 0
  {
    if rows != [] {
      var init := rows[..|rows| - 1];
      AddRowHasGroup(GroupSales(init), rows[|rows| - 1], date, sku);
      NoGroupQty(init, date, sku);
    }
  }

  /** Rows that formed no group set no market column. */
  lemma {:induction false} NoGroupMarket(rows: seq<SalesRow>, date: string, sku: Option<string>, market: int)
    requires !HasGroup(GroupSales(rows), date, sku)
    ensures LastMarketQty(rows, date, sku, market).None?
  {
    if rows != [] {
      var init := rows[..|rows| - 1];
      AddRowHasGroup(GroupSales(init), rows[|rows| - 1], date, sku);
      NoGroupMarket(init, date, sku, market);
    }
  }

  /** The table is empty exactly when there are no rows. */
  lemma GroupSalesEmpty(rows: seq<SalesRow>)
    ensures GroupSales(rows).keys == [] <==> rows == []
  {
    if rows != [] {
      var r := GroupSales(rows);
      assert rows[|rows| - 1].orderDate in r.entries;
    }
  }

  // ---------------------------------------------------------------------
  // Date index and the sales report
  // ---------------------------------------------------------------------

  /** The loop over `salesObj.keys()` followed by `index.sort()`: every order date once,
      in ascending string order. */
  method DateIndex(salesObj: SalesTable) returns (index: seq<string>)
    requires ValidTable(salesObj)
    ensures index == SortStrings(salesObj.keys)
    ensures SortedStrings(index) && multiset(index) == multiset(salesObj.keys)
  {
    var keys: seq<string> := [];
    var i := 0;
    while i < |salesObj.keys|
      invariant 0 <= i <= |salesObj.keys|
      invariant keys == salesObj.keys[..i]
    {
      keys := keys + [salesObj.keys[i]];
      i := i + 1;
    }
    assert keys == salesObj.keys;
    index := SortStrings(keys);
  }

  /** Every sorted date is a key of the table. */
  lemma SortedDatesKnown(t: SalesTable)
    requires ValidTable(t)
    ensures forall i :: 0 <= i < |SortStrings(t.keys)| ==> SortStrings(t.keys)[i] in t.entries
  {
    var dates := SortStrings(t.keys);
    forall i | 0 <= i < |dates| ensures dates[i] in t.entries {
      assert dates[i] in multiset(dates);
    }
  }

  /** The items of one date, in the order their SKUs were first seen. */
  function DateItems(m: JsMap<Option<string>, SalesItem>): seq<SalesItem>
    requires ValidMap(m)
  {
    seq(|m.keys|, j requires 0 <= j < |m.keys| => m.entries[m.keys[j]])
  }

  /** The items of the given dates, date by date. */
  function SalesArray(t: SalesTable, dates: seq<string>): seq<SalesItem>
    requires ValidTable(t)
    requires forall i :: 0 <= i < |dates| ==> dates[i] in t.entries
  {
    if dates == [] then []
    else SalesArray(t, dates[..|dates| - 1]) + DateItems(t.entries[dates[|dates| - 1]])
  }

  lemma SalesArraySnoc(t: SalesTable, dates: seq<string>, i: nat)
    requires ValidTable(t)
    requires i < |dates| && forall k :: 0 <= k < |dates| ==> dates[k] in t.entries
    ensures SalesArray(t, dates[..i + 1]) == SalesArray(t, dates[..i]) + DateItems(t.entries[dates[i]])
  {
    assert dates[..i + 1][..i] == dates[..i];
  }

  const SalesHeader: string :=
    "Order Date\tStandard SKU\tProduct Name\ttotal\tHat and Beyond Amazon\tHat and Beyond Sears\t" +
    "Hat and Beyond Walmart\tHat and Beyond Website (Shopify)\tMa Croix Amazon\tMa Croix eBay\t" +
    "Ma Croix Walmart\tSkyhigh eBay\tInventory Y/N\n"

  /** The market columns of the report, in column order. */
  const MarketColumns: seq<int> := [1, 8, 2, 3, 4, 5, 6, 7]

  /** `${item[m] || 0}`. */
  function MarketCell(item: SalesItem, m: int): string {
    IntToString(if m in item.byMarket then item.byMarket[m] else 0)
  }

  function MarketCells(item: SalesItem, markets: seq<int>): (r: seq<string>)
    ensures |r| == |markets| && forall j :: 0 <= j < |markets| ==> r[j] == MarketCell(item, markets[j])
  {
    if markets == [] then []
    else MarketCells(item, markets[..|markets| - 1]) + [MarketCell(item, markets[|markets| - 1])]
  }

  /** The `forEach` over the market columns, each appending a tab and a cell. */
  function MarketText(item: SalesItem, markets: seq<int>): string {
    if markets == [] then ""
    else MarketText(item, markets[..|markets| - 1]) + "\t" + MarketCell(item, markets[|markets| - 1])
  }

  /** The 13 fields of a report line, in header order: date, SKU, name, total, the
      eight markets in column order (0 when absent), inventory flag. */
  function SalesFields(item: SalesItem): (r: seq<string>)
    ensures |r| == 13
  {
    [ConvertDateFormat(item.orderDate), item.stdSku, item.productName, IntToString(item.totalOrderCnt)] +
    MarketCells(item, MarketColumns) + [Render(item.inventoryYn)]
  }

  /** One line of the sales report: its fields joined by tabs. */
  function SalesLine(item: SalesItem): string {
    Join(SalesFields(item), '\t') + "\n"
  }

  predicate NoTab(s: string) { '\t' !in s }

  /** Appending the market text to joined fields joins the market cells on as well. */
  lemma {:induction false} MarketTextJoin(item: SalesItem, markets: seq<int>, pre: seq<string>)
    requires |pre| >= 1
    ensures Join(pre, '\t') + MarketText(item, markets) == Join(pre + MarketCells(item, markets), '\t')
  {
    if markets == [] {
      assert pre + MarketCells(item, markets) == pre;
    } else {
      var init := markets[..|markets| - 1];
      var c := MarketCell(item, markets[|markets| - 1]);
      MarketTextJoin(item, init, pre);
      JoinSnoc(pre + MarketCells(item, init), c, '\t');
      AppendAssoc(pre, MarketCells(item, init), [c]);
    }
  }

  /** The text the handler appends per item (the four leading fields, a tab and a cell
      per market column, a tab and the inventory flag, a newline) is the line; its
      market fields are the cells of columns 1, 8, 2, 3, 4, 5, 6, 7 in that order. */
  lemma SalesLineTemplate(item: SalesItem)
    ensures ConvertDateFormat(item.orderDate) + "\t" + item.stdSku + "\t" + item.productName + "\t" +
      IntToString(item.totalOrderCnt) + MarketText(item, MarketColumns) + "\t" + Render(item.inventoryYn) + "\n"
      == SalesLine(item)
    ensures forall j :: 0 <= j < 8 ==> SalesFields(item)[4 + j] == MarketCell(item, MarketColumns[j])
  {
    var a := ConvertDateFormat(item.orderDate);
    var b := item.stdSku;
    var c := item.productName;
    var d := IntToString(item.totalOrderCnt);
    var e := Render(item.inventoryYn);
    var cells := MarketCells(item, MarketColumns);
    JoinSnoc([a], b, '\t');
    JoinSnoc([a, b], c, '\t');
    JoinSnoc([a, b, c], d, '\t');
    assert [a] + [b] == [a, b] && [a, b] + [c] == [a, b, c] && [a, b, c] + [d] == [a, b, c, d];
    MarketTextJoin(item, MarketColumns, [a, b, c, d]);
    JoinSnoc([a, b, c, d] + cells, e, '\t');
    assert SalesFields(item) == [a, b, c, d] + cells + [e];
  }

  /** Without tabs in the fields, splitting a line (without its newline) on tabs gives
      the 13 fields back. */
  lemma SalesLineSplit(item: SalesItem)
    ensures (forall j :: 0 <= j < 13 ==> NoTab(SalesFields(item)[j])) ==>
      Split(SalesLine(item)[..|SalesLine(item)| - 1], '\t') == SalesFields(item)
  {
    var f := SalesFields(item);
    var line := SalesLine(item);
    assert line[..|line| - 1] == Join(f, '\t');
    if forall j :: 0 <= j < 13 ==> NoTab(f[j]) {
      SplitJoin(f, '\t');
    }
  }

  /** The report: the header, then one line per (date, SKU) group, dates ascending and
      SKUs in first-seen order within a date. */
  function SalesTsvText(t: SalesTable): string
    requires ValidTable(t)
  {
    SalesHeader + Concat(SortedSalesArray(t), SalesLine)
  }

  /** Every item, dates ascending and SKUs in first-seen order within a date. */
  function SortedSalesArray(t: SalesTable): seq<SalesItem>
    requires ValidTable(t)
  {
    SortedDatesKnown(t);
    SalesArray(t, SortStrings(t.keys))
  }

  lemma DateItemsSnoc(m: JsMap<Option<string>, SalesItem>, j: nat)
    requires ValidMap(m) && j < |m.keys|
    ensures DateItems(m)[..j + 1] == DateItems(m)[..j] + [m.entries[m.keys[j]]]
  {
  }

  /** The inner `salesPerDateMap.forEach` of the download branch: one line per item of
      the date, in first-seen order. */
  method AppendDateLines(csv: string, perDate: JsMap<Option<string>, SalesItem>) returns (out: string)
    requires ValidMap(perDate)
    ensures out == csv + Concat(DateItems(perDate), SalesLine)
  {
    ghost var items := DateItems(perDate);
    out := csv;
    for j := 0 to |perDate.keys|
      invariant out == csv + Concat(items[..j], SalesLine)
    {
      ConcatExtend(csv, items, j, SalesLine, out);
      out := out + SalesLine(perDate.entries[perDate.keys[j]]);
    }
    assert items[..|perDate.keys|] == items;
  }

  lemma SalesLinesSnoc(t: SalesTable, dates: seq<string>, i: nat)
    requires ValidTable(t)
    requires i < |dates| && forall k :: 0 <= k < |dates| ==> dates[k] in t.entries
    ensures Concat(SalesArray(t, dates[..i + 1]), SalesLine) ==
      Concat(SalesArray(t, dates[..i]), SalesLine) + Concat(DateItems(t.entries[dates[i]]), SalesLine)
  {
    SalesArraySnoc(t, dates, i);
    ConcatAppend(SalesArray(t, dates[..i]), DateItems(t.entries[dates[i]]), SalesLine);
  }

  /** The download branch: the header, then the lines of each date in index order. */
  method SalesTsv(salesObj: SalesTable) returns (csv: string)
    requires ValidTable(salesObj)
    ensures csv == SalesTsvText(salesObj)
  {
    var index := DateIndex(salesObj);
    SortedDatesKnown(salesObj);
    csv := SalesHeader;
    var i := 0;
    while i < |index|
      invariant 0 <= i <= |index|
      invariant csv == SalesHeader + Concat(SalesArray(salesObj, index[..i]), SalesLine)
    {
      SalesLinesSnoc(salesObj, index, i);
      AppendAssoc(SalesHeader, Concat(SalesArray(salesObj, index[..i]), SalesLine),
                  Concat(DateItems(salesObj.entries[index[i]]), SalesLine));
      csv := AppendDateLines(csv, salesObj.entries[index[i]]);
      i := i + 1;
    }
    assert index[..i] == index;
  }

  /** The inner `forEach` of the JSON branch: push every item of the date. */
  method AppendDateItems(list: seq<SalesItem>, perDate: JsMap<Option<string>, SalesItem>) returns (out: seq<SalesItem>)
    requires ValidMap(perDate)
    ensures out == list + DateItems(perDate)
  {
    out := list;
    var j := 0;
    while j < |perDate.keys|
      invariant 0 <= j <= |perDate.keys|
      invariant out == list + DateItems(perDate)[..j]
    {
      DateItemsSnoc(perDate, j);
      out := out + [perDate.entries[perDate.keys[j]]];
      j := j + 1;
    }
    assert DateItems(perDate)[..j] == DateItems(perDate);
  }

  /** The JSON branch: the items of every date, dates ascending. */
  method SalesJsonArray(salesObj: SalesTable) returns (list: seq<SalesItem>)
    requires ValidTable(salesObj)
    ensures list == SortedSalesArray(salesObj)
  {
    var index := DateIndex(salesObj);
    SortedDatesKnown(salesObj);
    list := [];
    for i := 0 to |index|
      invariant list == SalesArray(salesObj, index[..i])
    {
      SalesArraySnoc(salesObj, index, i);
      list := AppendDateItems(list, salesObj.entries[index[i]]);
    }
    assert index[..|index|] == index;
  }

  /** The answer of the sales-by-SKU request. */
  datatype SalesResponse =
    | NoResponse                    // nothing is ever sent back
    | NoSalesData                   // `{status: -1, order_date: "Can't find sales data."}`
    | SalesFile(csv: string)        // the TSV download
    | SalesJson(items: seq<SalesItem>)

  function SalesAnswer(t: SalesTable, download: bool): SalesResponse
    requires ValidTable(t)
  {
    if download then SalesFile(SalesTsvText(t)) else SalesJson(SortedSalesArray(t))
  }

  /** The handler as written: on an empty result it calls `reject`, which does not exist
      in that scope; the ReferenceError lands in the final `catch`, which only logs it,
      so the client never gets an answer. */
  function SalesReportAsWritten(rows: seq<SalesRow>, download: bool): SalesResponse {
    var t := GroupSales(rows);
    if |t.keys| < 1 then NoResponse else SalesAnswer(t, download)
  }

  lemma EmptySalesGetNoAnswer(download: bool)
    ensures SalesReportAsWritten([], download) == NoResponse
  {
  }

  /** The handler as intended: the empty result is answered with the status -1 object
      the `catch` forwards, so every request is answered. */
  function SalesReport(rows: seq<SalesRow>, download: bool): (r: SalesResponse)
    ensures r != NoResponse
    ensures r == NoSalesData <==> rows == []
    ensures rows != [] ==> r == SalesAnswer(GroupSales(rows), download)
  {
    GroupSalesEmpty(rows);
    var t := GroupSales(rows);
    if |t.keys| < 1 then NoSalesData else SalesAnswer(t, download)
  }

  // ---------------------------------------------------------------------
  // Packing-status report
  // ---------------------------------------------------------------------

  /** A row of the packing-status query, each column as the text it renders to. */
  datatype PackingRow = PackingRow(
    orderDate: string, channelOrderNo: string, stdSku: string, productName: string,
    marketName: string, employeeName: string, noItemYn: string, tagChangeYn: string,
    shippingStatus: string, procDt: string, procTm: string)

  const PackingHeader: string :=
    "Order Date\tOrder #\tSKU\tProduct Name\tMarketplace\tEmployee\tNo Item\tTag Change\tFulfilled Date\n"

  /** The fulfilled date: formatted from PROC_DT + PROC_TM only for shipped ('01') rows. */
  function FulfilledDate(row: PackingRow): string {
    if row.shippingStatus == "01" then ConvertDatetimeFormat(row.procDt + row.procTm) else ""
  }

  /** The 9 fields of a line, in header order. */
  function PackingFields(row: PackingRow): (r: seq<string>)
    ensures |r| == 9
  {
    [ConvertDateFormat(row.orderDate), row.channelOrderNo, row.stdSku, row.productName,
     row.marketName, row.employeeName, row.noItemYn, row.tagChangeYn, FulfilledDate(row)]
  }

  /** One line of the packing report: its fields joined by tabs. */
  function PackingLine(row: PackingRow): string {
    Join(PackingFields(row), '\t') + "\n"
  }

  method PackingTsv(rows: seq<PackingRow>) returns (csv: string)
    ensures csv == PackingHeader + Concat(rows, PackingLine)
  {
    csv := PackingHeader;
    var i := 0;
    while i < |rows|
      invariant 0 <= i <= |rows|
      invariant csv == PackingHeader + Concat(rows[..i], PackingLine)
    {
      ConcatExtend(PackingHeader, rows, i, PackingLine, csv);
      csv := csv + PackingLine(rows[i]);
      i := i + 1;
    }
    assert rows[..i] == rows;
  }

  /** The text the handler appends per row (eight fields joined by tabs, then a tab,
      the fulfilled date and a newline) is the line. */
  lemma PackingLineTemplate(row: PackingRow)
    ensures ConvertDateFormat(row.orderDate) + "\t" + row.channelOrderNo + "\t" + row.stdSku + "\t" +
      row.productName + "\t" + row.marketName + "\t" + row.employeeName + "\t" + row.noItemYn + "\t" +
      row.tagChangeYn + "\t" + FulfilledDate(row) + "\n" == PackingLine(row)
  {
    var f := PackingFields(row);
    JoinSnoc(f[..1], f[1], '\t');
    JoinSnoc(f[..2], f[2], '\t');
    JoinSnoc(f[..3], f[3], '\t');
    JoinSnoc(f[..4], f[4], '\t');
    JoinSnoc(f[..5], f[5], '\t');
    JoinSnoc(f[..6], f[6], '\t');
    JoinSnoc(f[..7], f[7], '\t');
    JoinSnoc(f[..8], f[8], '\t');
    assert f[..2] == f[..1] + [f[1]] && f[..3] == f[..2] + [f[2]] && f[..4] == f[..3] + [f[3]];
    assert f[..5] == f[..4] + [f[4]] && f[..6] == f[..5] + [f[5]] && f[..7] == f[..6] + [f[6]];
    assert f[..8] == f[..7] + [f[7]] && f == f[..8] + [f[8]];
  }

  /** The fulfilled date is empty unless the row is shipped ('01'), and then, for an
      8-character PROC_DT and a 6-character PROC_TM, it is "yyyy-mm-dd hh:mi:ss" made
      of them. */
  lemma PackingFulfilledDate(row: PackingRow)
    ensures row.shippingStatus != "01" ==> PackingFields(row)[8] == ""
    ensures row.shippingStatus == "01" && |row.procDt| == 8 && |row.procTm| == 6 ==>
      PackingFields(row)[8] == ConvertDateFormat(row.procDt) + " " + ConvertTimeFormat(row.procTm)
  {
    if row.shippingStatus == "01" && |row.procDt| == 8 && |row.procTm| == 6 {
      var s := row.procDt + row.procTm;
      DatetimeFormatParts(s);
      assert s[..8] == row.procDt && s[|s| - 6..] == row.procTm;
    }
  }

  /** Without tabs in the fields, splitting a line (without its newline) on tabs gives
      the fields back. */
  lemma PackingLineSplit(row: PackingRow)
    ensures (forall j :: 0 <= j < 9 ==> NoTab(PackingFields(row)[j])) ==>
      Split(PackingLine(row)[..|PackingLine(row)| - 1], '\t') == PackingFields(row)
  {
    var f := PackingFields(row);
    var line := PackingLine(row);
    assert line[..|line| - 1] == Join(f, '\t');
    if forall j :: 0 <= j < 9 ==> NoTab(f[j]) {
      SplitJoin(f, '\t');
    }
  }
}
