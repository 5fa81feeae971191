/**
 * The purchase-order routes: which monthly spreadsheet receives an exported
 * order and how its name rolls over to a new month, the title of the new
 * sheet, the cell ranges and formatting requests the export writes, the
 * inserts `place_order` builds, the product/color/size grouping of
 * `order_detail`, the label filter and its chunks of four, and the vendor
 * grouping and padding of `sendEmail`.
 *
 * Drive, Sheets, SendGrid and PDF calls are not modelled; what they return
 * is an input and what they are sent is the result.
 */
module OrderForm {
  import opened JsText
  import opened Datetime

  // ---------------------------------------------------------------------
  // The monthly order-history file
  // ---------------------------------------------------------------------

  /** The id and title of a spreadsheet in the order-form folder. */
  datatype FileMeta = FileMeta(id: string, title: string)

  /** `parseInt(title.substring(title.lastIndexOf('_') + 1))`. */
  function TitleSuffix(title: string): JsNumber {
    ParseInt(AfterLast(title, '_'), false)
  }

  /** The rank the descending sort gives a file: its numeric suffix, with a missing
      (NaN) suffix below every number. */
  function Rank(m: FileMeta): Option<int> {
    var n := TitleSuffix(m.title);
    if n.Tenths? then Some(n.t) else None
  }

  predicate RankBelow(a: Option<int>, b: Option<int>) {
    (a.None? && b.Some?) || (a.Some? && b.Some? && a.value < b.value)
  }

  /** The ranks of the files, in folder order. */
  function Ranks(metas: seq<FileMeta>): (r: seq<Option<int>>)
    ensures |r| == |metas| && forall i :: 0 <= i < |metas| ==> r[i] == Rank(metas[i])
  {
    seq(|metas|, i requires 0 <= i < |metas| => Rank(metas[i]))
  }

  /** The position of the first largest rank. */
  function NewestIndex(ranks: seq<Option<int>>): (k: nat)
    requires ranks != []
    ensures k < |ranks|
  {
    if |ranks| == 1 then 0
    else
      var k := NewestIndex(ranks[..|ranks| - 1]);
      if RankBelow(ranks[k], ranks[|ranks| - 1]) then |ranks| - 1 else k
  }

  /** No rank is above the chosen one and every rank before it is strictly below it. */
  lemma {:induction false} NewestIndexSpec(ranks: seq<Option<int>>)
    requires ranks != []
    ensures var k := NewestIndex(ranks);
      (forall i :: 0 <= i < |ranks| ==> !RankBelow(ranks[k], ranks[i])) &&
      (forall i :: 0 <= i < k ==> RankBelow(ranks[i], ranks[k]))
  {
    if |ranks| > 1 {
      var init := ranks[..|ranks| - 1];
      NewestIndexSpec(init);
      var k := NewestIndex(init);
      assert forall i :: 0 <= i < |init| ==> init[i] == ranks[i];
    }
  }

  /** `metaList[0]` after the descending sort on the suffix: the first file with the
      largest suffix, or nothing for an empty folder. */
  function NewestFile(metas: seq<FileMeta>): (r: Option<FileMeta>)
    ensures r.None? <==> metas == []
  {
    if metas == [] then None else Some(metas[NewestIndex(Ranks(metas))])
  }

  /** The chosen file is in the folder, no file ranks above it, and every file before
      it ranks strictly below it, so among equal suffixes the earliest is chosen (the
      sort is stable). */
  lemma NewestFileSpec(metas: seq<FileMeta>)
    requires metas != []
    ensures exists k :: (0 <= k < |metas| && NewestFile(metas) == Some(metas[k]) &&
      (forall i :: 0 <= i < |metas| ==> !RankBelow(Rank(metas[k]), Rank(metas[i]))) &&
      (forall i :: 0 <= i < k ==> RankBelow(Rank(metas[i]), Rank(metas[k]))))
  {
    NewestIndexSpec(Ranks(metas));
    var k := NewestIndex(Ranks(metas));
    assert NewestFile(metas) == Some(metas[k]);
  }

  /** Where the order is written: an existing file, or a new file of that name. */
  datatype SheetFile = Existing(id: string) | CreateFile(name: string)

  /** The month rollover: when the chosen file's suffix is below the current month
      (`parseInt(curDttm.substring(4, 6))`), a new file is named after the title up to
      and including its last '_' followed by the month padded to two digits; otherwise
      the chosen file is reused. A NaN on either side never rolls over. */
  function Rollover(meta: FileMeta, curDttm: string): SheetFile {
    var curMonth := ParseInt(Substring(curDttm, 4, 6), false);
    if Less(TitleSuffix(meta.title), curMonth) then
      CreateFile(UpToLast(meta.title, '_') + SliceFrom("0" + NumberToString(curMonth), -2))
    else Existing(meta.id)
  }

  /** The month of a well-formed stamp is read back as a number. */
  lemma StampMonth(f: DateFields)
    requires ValidFields(f)
    ensures ParseInt(Substring(GetDttm(f), 4, 6), false) == FromInt(f.month0 + 1)
  {
    var s := GetDttm(f);
    GetDttmLayout(f);
    assert Substring(s, 4, 6) == s[4..6];
    ParseIntDigits(s[4..6], false);
  }

  /** For the stamp of a date in month m: a file whose suffix is below m rolls over to
      the title's prefix followed by m as two digits, any other file is reused. */
  lemma RolloverOfStamp(meta: FileMeta, f: DateFields)
    requires ValidFields(f)
    ensures var m := f.month0 + 1;
      Rollover(meta, GetDttm(f)) ==
        if Less(TitleSuffix(meta.title), FromInt(m)) then CreateFile(UpToLast(meta.title, '_') + Pad2(m))
        else Existing(meta.id)
  {
    StampMonth(f);
    NumberToStringInt(f.month0 + 1);
    var cur := ParseInt(Substring(GetDttm(f), 4, 6), false);
    assert SliceFrom("0" + NumberToString(cur), -2) == Pad2(f.month0 + 1);
  }

  /** The file a rollover creates carries the current month as its suffix, so in the
      same month it is reused rather than rolled over again. */
  lemma RolloverSettles(title: string, id: string, f: DateFields)
    requires ValidFields(f)
    ensures var m := f.month0 + 1;
      var name := UpToLast(title, '_') + Pad2(m);
      TitleSuffix(name) == FromInt(m) && Rollover(FileMeta(id, name), GetDttm(f)) == Existing(id)
  {
    var m := f.month0 + 1;
    var q := Pad2(m);
    Pad2Digits(m);
    assert '_' !in q by {
      forall i | 0 <= i < |q| ensures q[i] != '_' {
        assert IsDigit(q[i]);
      }
    }
    SuffixAfterPrefix(title, q);
    ParseIntDigits(q, false);
    StampMonth(f);
  }

  /** Text without '_' appended to a title's prefix up to its last '_' is what follows
      the last '_' of the result. */
  lemma SuffixAfterPrefix(title: string, q: string)
    requires '_' !in q
    ensures AfterLast(UpToLast(title, '_') + q, '_') == q
  {
    var p := UpToLast(title, '_');
    SplitAtLast(title, '_');
    if p == [] {
      assert p + q == q;
      LastIndexOfAbsent(q, '_');
    } else {
      LastIndexOfAppend(p, q, '_');
    }
  }

  // ---------------------------------------------------------------------
  // The title of the new sheet
  // ---------------------------------------------------------------------

  /** 'st', 'nd' and 'rd' for the days 1, 2 and 3 only; 'th' for every other day. */
  function DaySuffix(day: JsNumber): string {
    if day == FromInt(1) then "st" else if day == FromInt(2) then "nd" else if day == FromInt(3) then "rd" else "th"
  }

  /** `${day}${suffix} ${time}` with the day read by `parseInt(..., 10)` from characters
      6-8 of the stamp and the time formatted from the rest. */
  function SheetTitle(curDttm: string): string {
    var day := ParseInt(Substring(curDttm, 6, 8), true);
    var time := ConvertTimeFormat(Substring(curDttm, 8, |curDttm|));
    NumberToString(day) + DaySuffix(day) + " " + time
  }

  /** The day of a well-formed stamp is read back as a number. */
  lemma StampDay(f: DateFields)
    requires ValidFields(f)
    ensures ParseInt(Substring(GetDttm(f), 6, 8), true) == FromInt(f.date)
  {
    var s := GetDttm(f);
    GetDttmLayout(f);
    assert Substring(s, 6, 8) == s[6..8];
    ParseIntDigits(s[6..8], true);
  }

  /** The time part of a well-formed stamp formats as "hh:mi:ss". */
  lemma StampTime(f: DateFields)
    requires ValidFields(f)
    ensures ConvertTimeFormat(Substring(GetDttm(f), 8, 14)) ==
      Pad2(f.hours) + ":" + Pad2(f.minutes) + ":" + Pad2(f.seconds)
  {
    NatToStringFourDigits(f.year);
    Pad2Digits(f.month0 + 1);
    Pad2Digits(f.date);
    Pad2Digits(f.hours);
    Pad2Digits(f.minutes);
    Pad2Digits(f.seconds);
    StampPieces(IntToString(f.year), Pad2(f.month0 + 1), Pad2(f.date), Pad2(f.hours), Pad2(f.minutes), Pad2(f.seconds));
    TimeOfStamp(GetDttm(f));
  }

  /** The time part of any 14-character stamp is its last six characters in pairs. */
  lemma TimeOfStamp(s: string)
    requires |s| == 14
    ensures ConvertTimeFormat(Substring(s, 8, 14)) == s[8..10] + ":" + s[10..12] + ":" + s[12..14]
  {
    var t := Substring(s, 8, 14);
    assert t == s[8..14];
    SliceWithin(t, 0, 2);
    SliceWithin(t, 2, 4);
    SliceWithin(t, 4, 6);
    SliceOfSlice(s, 8, 14, 0, 2);
    SliceOfSlice(s, 8, 14, 2, 4);
    SliceOfSlice(s, 8, 14, 4, 6);
  }

  /** For the stamp of some fields, the title is the day without a leading zero, its
      suffix and "hh:mi:ss"; the days 21, 22, 23 and 31 also get 'th'. */
  lemma SheetTitleOfStamp(f: DateFields)
    requires ValidFields(f)
    ensures SheetTitle(GetDttm(f)) ==
      IntToString(f.date) + DaySuffix(FromInt(f.date)) + " " +
      (Pad2(f.hours) + ":" + Pad2(f.minutes) + ":" + Pad2(f.seconds))
    ensures DaySuffix(FromInt(f.date)) ==
      if f.date == 1 then "st" else if f.date == 2 then "nd" else if f.date == 3 then "rd" else "th"
  {
    StampLength(f);
    StampDay(f);
    StampTime(f);
    DaySuffixOf(f.date);
    SheetTitleParts(GetDttm(f), f.date, Pad2(f.hours) + ":" + Pad2(f.minutes) + ":" + Pad2(f.seconds));
  }

  lemma StampLength(f: DateFields)
    requires ValidFields(f)
    ensures |GetDttm(f)| == 14
  {
    GetDttmLayout(f);
  }

  lemma DaySuffixOf(day: int)
    ensures DaySuffix(FromInt(day)) ==
      if day == 1 then "st" else if day == 2 then "nd" else if day == 3 then "rd" else "th"
  {
  }

  /** The title of a 14-character stamp from its day number and its formatted time. */
  lemma SheetTitleParts(s: string, day: nat, time: string)
    requires |s| == 14
    requires ParseInt(Substring(s, 6, 8), true) == FromInt(day)
    requires ConvertTimeFormat(Substring(s, 8, 14)) == time
    ensures SheetTitle(s) == IntToString(day) + DaySuffix(FromInt(day)) + " " + time
  {
    NumberToStringInt(day);
  }

  // ---------------------------------------------------------------------
  // Sheet layout of an exported order
  // ---------------------------------------------------------------------

  /** One product of the export request: its size codes, its colors, one row of
      quantities per color, and the product total. */
  datatype OrderBlock = OrderBlock(
    brandName: string, productCode: string, productTitle: string,
    sizeCodes: seq<string>, colorVariant: seq<string>, order: seq<seq<int>>, totalQty: int)

  /** A cell value: text, a number, or `undefined` (a color the request lacks). */
  datatype Cell = Text(s: string) | Num(n: int) | Undefined

  /** A range of one sheet row and the values written into it; rows are counted from 1
      and columns from 0 (column A), both ends included. */
  datatype ValueRange = ValueRange(firstRow: int, firstCol: int, lastRow: int, lastCol: int, values: seq<Cell>)

  /** The range of a formatting request: rows and columns counted from 0, start
      included, end excluded. */
  datatype GridRange = GridRange(startRow: int, endRow: int, startCol: int, endCol: int)

  datatype SheetAction = MergeColumns(range: GridRange) | UpdateBorders(range: GridRange)

  /** Column E, where the size columns start. */
  const SizeStart: int := 4

  /** The column after the last size column: `'E' + |sizeVariant|`. */
  function TotalCol(o: OrderBlock): int {
    SizeStart + |o.sizeCodes|
  }

  /** `0 < v ? '' + v : ''`. */
  function QtyCell(v: int): Cell {
    Text(if 0 < v then IntToString(v) else "")
  }

  function ColorCell(o: OrderBlock, j: nat): Cell {
    if j < |o.colorVariant| then Text(o.colorVariant[j]) else Undefined
  }

  /** The `j`-th color row when the product row is `row`: the color in column D, then
      one cell per quantity, up to the last size column. */
  function ColorRowRange(o: OrderBlock, row: int, j: nat): ValueRange
    requires j < |o.order|
  {
    ValueRange(row + j, 3, row + j, TotalCol(o) - 1,
      [ColorCell(o, j)] + seq(|o.order[j]|, k requires 0 <= k < |o.order[j]| => QtyCell(o.order[j][k])))
  }

  function ColorRows(o: OrderBlock, row: int, n: nat): (r: seq<ValueRange>)
    requires n <= |o.order|
    ensures |r| == n && forall j :: 0 <= j < n ==> r[j] == ColorRowRange(o, row, j)
  {
    seq(n, j requires 0 <= j < n => ColorRowRange(o, row, j))
  }

  function SizeHeader(o: OrderBlock): seq<Cell> {
    seq(|o.sizeCodes|, k requires 0 <= k < |o.sizeCodes| => Text(o.sizeCodes[k])) + [Text("TOTAL QTY")]
  }

  /** The value ranges of one product when `curRow` is `s` on entry: the header row, the
      size header, the product row, one row per color (the first beside the product),
      and the total beside the product. */
  function BlockData(o: OrderBlock, s: int): seq<ValueRange> {
    [ValueRange(s, 0, s, 3, [Text("VENDOR"), Text("ITEM"), Text("NAME"), Text("COLOR")]),
     ValueRange(s, SizeStart, s, TotalCol(o), SizeHeader(o)),
     ValueRange(s + 1, 0, s + 1, 2, [Text(o.brandName), Text(o.productCode), Text(o.productTitle)])] +
    ColorRows(o, s + 1, |o.order|) +
    [ValueRange(s + 1, TotalCol(o), s + 1, TotalCol(o), [Num(o.totalQty)])]
  }

  /** The three formatting requests of one product when `curRow` is `s` on entry. */
  function BlockActions(o: OrderBlock, s: int): seq<SheetAction> {
    var c := s + 1;
    var n := |o.order|;
    [MergeColumns(GridRange(c - 1, c + n - 1, 0, 3)),
     MergeColumns(GridRange(c - 1, c + n - 1, TotalCol(o), TotalCol(o) + 1)),
     UpdateBorders(GridRange(c - 2, c + n - 1, 0, TotalCol(o) + 1))]
  }

  /** `curRow` after the given products: it starts at 1 and each product advances it by
      its number of colors plus 2. */
  function NextRow(list: seq<OrderBlock>): int {
    if list == [] then 1 else NextRow(list[..|list| - 1]) + |list[|list| - 1].order| + 2
  }

  function LayoutData(list: seq<OrderBlock>): seq<ValueRange> {
    if list == [] then []
    else LayoutData(list[..|list| - 1]) + BlockData(list[|list| - 1], NextRow(list[..|list| - 1]))
  }

  function LayoutActions(list: seq<OrderBlock>): seq<SheetAction> {
    if list == [] then []
    else LayoutActions(list[..|list| - 1]) + BlockActions(list[|list| - 1], NextRow(list[..|list| - 1]))
  }

  /** The inner loop over the colors of one product. */
  method PushColorRows(data: seq<ValueRange>, o: OrderBlock, curRow: int) returns (out: seq<ValueRange>)
    ensures out == data + ColorRows(o, curRow, |o.order|)
  {
    out := data;
    var j := 0;
    while j < |o.order|
      invariant 0 <= j <= |o.order|
      invariant out == data + ColorRows(o, curRow, j)
    {
      var values := [ColorCell(o, j)] + seq(|o.order[j]|, k requires 0 <= k < |o.order[j]| => QtyCell(o.order[j][k]));
      assert ColorRows(o, curRow, j + 1) == ColorRows(o, curRow, j) + [ColorRowRange(o, curRow, j)];
      out := out + [ValueRange(curRow + j, 3, curRow + j, SizeStart + |o.sizeCodes| - 1, values)];
      j := j + 1;
    }
  }

  /** The value ranges of one product, pushed in the order the export pushes them. */
  method PushBlock(data: seq<ValueRange>, order: OrderBlock, curRow: int) returns (out: seq<ValueRange>)
    ensures out == data + BlockData(order, curRow)
  {
    var totalCol := SizeStart + |order.sizeCodes|;
    out := data + [ValueRange(curRow, 0, curRow, 3, [Text("VENDOR"), Text("ITEM"), Text("NAME"), Text("COLOR")])];
    out := out + [ValueRange(curRow, SizeStart, curRow, totalCol, SizeHeader(order))];
    out := out + [ValueRange(curRow + 1, 0, curRow + 1, 2, [Text(order.brandName), Text(order.productCode), Text(order.productTitle)])];
    out := PushColorRows(out, order, curRow + 1);
    out := out + [ValueRange(curRow + 1, totalCol, curRow + 1, totalCol, [Num(order.totalQty)])];
  }

  /** The layout loop of the export: pushes the value ranges and formatting requests of
      every product in order, moving `curRow` down past each one. */
  method LayoutSheet(list: seq<OrderBlock>) returns (data: seq<ValueRange>, sheetAction: seq<SheetAction>)
    ensures data == LayoutData(list)
    ensures sheetAction == LayoutActions(list)
  {
    data := [];
    sheetAction := [];
    var curRow := 1;
    var i := 0;
    while i < |list|
      invariant 0 <= i <= |list|
      invariant data == LayoutData(list[..i])
      invariant sheetAction == LayoutActions(list[..i])
      invariant curRow == NextRow(list[..i])
    {
      LayoutStep(list, i);
      ghost var before := sheetAction;
      var order := list[i];
      var lastSizeCol := SizeStart + |order.sizeCodes| - 1;
      var totalCol := lastSizeCol + 1;
      data := PushBlock(data, order, curRow);
      curRow := curRow + 1;
      sheetAction := sheetAction + [MergeColumns(GridRange(curRow - 1, curRow + |order.order| - 1, 0, 3))];
      sheetAction := sheetAction + [MergeColumns(GridRange(curRow - 1, curRow + |order.order| - 1, totalCol, totalCol + 1))];
      sheetAction := sheetAction + [UpdateBorders(GridRange(curRow - 2, curRow + |order.order| - 1, 0, totalCol + 1))];
      assert sheetAction == before + BlockActions(order, curRow - 1);
      curRow := curRow + |order.order| + 1;
      i := i + 1;
    }
    assert list[..i] == list;
  }

  /** One more product extends the layout by its own block, at the row the earlier
      products leave. */
  lemma LayoutStep(list: seq<OrderBlock>, i: nat)
    requires i < |list|
    ensures LayoutData(list[..i + 1]) == LayoutData(list[..i]) + BlockData(list[i], NextRow(list[..i]))
    ensures LayoutActions(list[..i + 1]) == LayoutActions(list[..i]) + BlockActions(list[i], NextRow(list[..i]))
    ensures NextRow(list[..i + 1]) == NextRow(list[..i]) + |list[i].order| + 2
  {
    assert list[..i + 1][..i] == list[..i];
  }

  /** The number of value ranges the products write: 4 plus one per color each. */
  function RangeCount(list: seq<OrderBlock>): nat {
    if list == [] then 0 else RangeCount(list[..|list| - 1]) + 4 + |list[|list| - 1].order|
  }

  /** Each product adds 4 + |colors| value ranges and exactly 3 formatting requests. */
  lemma {:induction false} LayoutCounts(list: seq<OrderBlock>)
    ensures |LayoutData(list)| == RangeCount(list)
    ensures |LayoutActions(list)| == 3 * |list|
    ensures NextRow(list) >= 1
  {
    if list != [] {
      LayoutCounts(list[..|list| - 1]);
    }
  }

  /** The geometry of one product starting at row `s`: every range lies on one row
      between `s` and the row before the next product (which starts at s + |colors| + 2);
      both merges cover exactly the color rows (0-based rows s .. s + |colors| - 1, the
      1-based rows s + 1 .. s + |colors|), the first over columns A-C and the second over
      the total column; the border adds the header row and spans every column written. */
  lemma BlockGeometry(o: OrderBlock, s: int)
    ensures forall r :: r in BlockData(o, s) ==>
      s <= r.firstRow == r.lastRow < s + |o.order| + 2 && 0 <= r.firstCol <= r.lastCol <= TotalCol(o)
    ensures |o.order| >= 1 ==> forall r :: r in BlockData(o, s) ==> r.lastRow <= s + |o.order|
    ensures BlockData(o, s)[3..3 + |o.order|] == ColorRows(o, s + 1, |o.order|)
    ensures forall r :: r in ColorRows(o, s + 1, |o.order|) ==> s + 1 <= r.firstRow <= s + |o.order|
    ensures BlockActions(o, s)[0].range == GridRange(s, s + |o.order|, 0, 3)
    ensures BlockActions(o, s)[1].range == GridRange(s, s + |o.order|, TotalCol(o), TotalCol(o) + 1)
    ensures BlockActions(o, s)[2].range == GridRange(s - 1, s + |o.order|, 0, TotalCol(o) + 1)
  {
  }

  /** When every color has one quantity per size, each range holds exactly as many
      values as it has columns. */
  lemma BlockValuesFit(o: OrderBlock, s: int)
    requires forall j :: 0 <= j < |o.order| ==> |o.order[j]| == |o.sizeCodes|
    ensures forall r :: r in BlockData(o, s) ==> |r.values| == r.lastCol - r.firstCol + 1
  {
  }

  /** The products do not overlap: every range of an earlier product lies above every
      range of a later one. */
  lemma LayoutDisjoint(list: seq<OrderBlock>, i: nat, j: nat)
    requires i < j < |list|
    ensures forall a, b :: a in BlockData(list[i], NextRow(list[..i])) && b in BlockData(list[j], NextRow(list[..j])) ==>
      a.lastRow < b.firstRow
  {
    BlockGeometry(list[i], NextRow(list[..i]));
    BlockGeometry(list[j], NextRow(list[..j]));
    NextRowGrows(list, i + 1, j);
    assert list[..i + 1][..i] == list[..i];
  }

  lemma {:induction false} NextRowGrows(list: seq<OrderBlock>, i: nat, j: nat)
    requires i <= j <= |list|
    ensures NextRow(list[..i]) <= NextRow(list[..j])
    decreases j - i
  {
    if i < j {
      NextRowGrows(list, i, j - 1);
      assert list[..j][..j - 1] == list[..j - 1];
    }
  }

  // ---------------------------------------------------------------------
  // Order placement
  // ---------------------------------------------------------------------

  /** One entry of ORDER_LIST: the columns of one PRODUCT_ORDER insert. ORDER_SEQ is
      not sent by the client; the handler fills it in. */
  datatype OrderLine = OrderLine(
    orderDate: string, orderSeq: Option<int>, stdSku: string, productCode: string, brandCode: string,
    vendorCode: string, orderQty: int, orderTm: string, employeeId: string)

  /** What a request gets back: nothing (the handler ends without answering), a JSON
      body, or a bare HTTP status (what Express answers when the handler throws
      before any answer and the error handler itself fails to render). */
  datatype Reply = NoReply | Json(code: int, status: string) | ErrorPage(httpStatus: int)

  /** The loop that stamps every order line with the sequence number and queues one
      insert per line; each insert is its line with only ORDER_SEQ changed. */
  method BuildInserts(list: seq<OrderLine>, orderSeq: int) returns (transactionList: seq<OrderLine>, numOfOrder: int)
    ensures numOfOrder == |list| == |transactionList|
    ensures forall i :: 0 <= i < |list| ==>
      transactionList[i].orderSeq == Some(orderSeq) && transactionList[i].(orderSeq := list[i].orderSeq) == list[i]
  {
    transactionList := [];
    numOfOrder := 0;
    for i := 0 to |list|
      invariant numOfOrder == i == |transactionList|
      invariant forall k :: 0 <= k < i ==> transactionList[k] == list[k].(orderSeq := Some(orderSeq))
    {
      var order := list[i].(orderSeq := Some(orderSeq));
      transactionList := transactionList + [order];
      numOfOrder := numOfOrder + 1;
    }
  }

  /** The outcome of `place_order` as written. A body without ORDER_LIST makes
      `list.length` throw, and Express answers with status 500. An empty list
      is refused with code 400. With a sequence number found and the transaction
      committed, the answer is 200 "Inserted n orders.". On either failure the catch
      handler reads the undeclared `errMsg`, throws, and the request is never answered. */
  function PlaceOrderReplyAsWritten(list: Option<seq<OrderLine>>, maxSeqFound: bool, committed: bool): Reply {
    if list.None? then ErrorPage(500)
    else if |list.value| < 1 then Json(400, "The Order list is empty.")
    else if !maxSeqFound || !committed then NoReply
    else Json(200, "Inserted " + IntToString(|list.value|) + " orders.")
  }

  /** A failed sequence lookup or transaction leaves the client without an answer. */
  lemma PlaceOrderFailureUnanswered(line: OrderLine)
    ensures PlaceOrderReplyAsWritten(Some([line]), false, true) == NoReply
    ensures PlaceOrderReplyAsWritten(Some([line]), true, false) == NoReply
  {
  }

  /** The message thrown when no maximum sequence is found for the order date. */
  function LookupFailure(orderDate: string): string {
    "Failed to get the maximum sequence from PRODUCT_ORDER with ORDER_DATE(" + orderDate + ")"
  }

  const InsertFailure := "Failed to insert order into database."

  /** The outcome with the two catch handlers answering code 400 with the message of
      the error they caught. */
  function PlaceOrderReply(list: seq<OrderLine>, maxSeqFound: bool, committed: bool): (r: Reply)
    ensures r.Json?
    ensures r.code == 200 <==> |list| >= 1 && maxSeqFound && committed
    ensures r.code != 200 ==> r.code == 400
  {
    if |list| < 1 then Json(400, "The Order list is empty.")
    else if !maxSeqFound then Json(400, LookupFailure(list[0].orderDate))
    else if !committed then Json(400, InsertFailure)
    else Json(200, "Inserted " + IntToString(|list|) + " orders.")
  }

  /** Every request with a list is answered, and whatever the handler as written
      answers for it is answered the same way. */
  lemma PlaceOrderReplyAgrees(list: seq<OrderLine>, maxSeqFound: bool, committed: bool)
    ensures PlaceOrderReplyAsWritten(Some(list), maxSeqFound, committed) != NoReply ==>
      PlaceOrderReplyAsWritten(Some(list), maxSeqFound, committed) == PlaceOrderReply(list, maxSeqFound, committed)
  {
  }

  /** What `place_order` does: the order lines it sends to the transaction (none for a
      missing or empty list or a failed lookup), the reply, and the date and sequence
      number of the follow-up e-mail request (sent only after a commit). `body` is
      ORDER_LIST, absent when the request body has none; `maxSeq` is the row of the
      sequence query, if it returned one; `committed` is the transaction's outcome. */
  method PlaceOrder(body: Option<seq<OrderLine>>, maxSeq: Option<(string, int)>, committed: bool)
    returns (inserts: seq<OrderLine>, reply: Reply, email: Option<(string, int)>)
    ensures body.None? ==> reply == ErrorPage(500) && inserts == [] && email == None
    ensures body.Some? ==> reply == PlaceOrderReply(body.value, maxSeq.Some?, committed)
    ensures body.Some? && (|body.value| < 1 || maxSeq.None?) ==> inserts == []
    ensures body.Some? && |body.value| >= 1 && maxSeq.Some? ==>
      |inserts| == |body.value| &&
      forall i :: 0 <= i < |body.value| ==> inserts[i] == body.value[i].(orderSeq := Some(maxSeq.value.1))
    ensures email.Some? <==> reply.Json? && reply.code == 200
    ensures email.Some? ==> email == maxSeq
  {
    inserts := [];
    email := None;
    if body.None? {
      // `list.length` on an undefined ORDER_LIST throws.
      reply := ErrorPage(500);
      return;
    }
    var list := body.value;
    if |list| < 1 {
      reply := Json(400, "The Order list is empty.");
      return;
    }
    if maxSeq.None? {
      reply := Json(400, LookupFailure(list[0].orderDate));
      return;
    }
    var (orderDate, orderSeq) := maxSeq.value;
    var numOfOrder;
    inserts, numOfOrder := BuildInserts(list, orderSeq);
    if committed {
      reply := Json(200, "Inserted " + IntToString(numOfOrder) + " orders.");
      email := Some((orderDate, orderSeq));
    } else {
      reply := Json(400, InsertFailure);
    }
  }

  // ---------------------------------------------------------------------
  // Order detail grouping
  // ---------------------------------------------------------------------

  /** The product-level columns of an order-detail row, which the product's entry
      copies from each of its rows in turn. */
  datatype ProductInfo = ProductInfo(
    vendorCode: string, vendorName: string, ordersFrom: Option<string>, brandName: string, vendorEmail: string,
    productTitle: string, manufacturingCode: string, employeeId: string, employeeName: Option<string>,
    orderDate: string, orderSeq: int)

  datatype DetailRow = DetailRow(
    productCode: string, productColor: string, sizeCode: string, manufacturingColor: string,
    orderQty: int, info: ProductInfo)

  /** A value in the object of one color: a row stored under its size code, or the
      manufacturing color stored under the key `manufacturingColor` of the same object. */
  datatype ItemValue = Item(row: DetailRow) | Mfg(text: string)

  /** The key under which the object of a color keeps its manufacturing color. */
  const MfgKey := "manufacturingColor"

  /** One color of a product: one object holding its rows by size code and, under
      `MfgKey`, the manufacturing color of its last row. */
  type ColorItems = JsMap<string, ItemValue>

  /** One product of `orderObj`. */
  datatype ProductGroup = ProductGroup(colors: JsMap<string, ColorItems>, info: ProductInfo, totalQty: int)

  /** `orderObj`: product code -> product. */
  type DetailTable = JsMap<string, ProductGroup>

  const NoInfo := ProductInfo("", "", None, "", "", "", "", "", None, "", 0)

  /** A fresh `{}`: no colors and a total that reads as 0. */
  const NewProduct: ProductGroup := ProductGroup(EmptyMap(), NoInfo, 0)

  /** The color of a row: the trimmed text after the last '_' of PRODUCT_COLOR. It holds
      no '_' and no white space at either end. */
  function ColorOf(productColor: string): string {
    Trim(AfterLast(productColor, '_'))
  }

  /** A color key holds no '_' and has no white space at either end. */
  lemma ColorOfClean(productColor: string)
    ensures '_' !in ColorOf(productColor)
    ensures var r := ColorOf(productColor);
      r == [] || (!IsJsSpace(r[0]) && !IsJsSpace(r[|r| - 1]))
  {
    var a := AfterLast(productColor, '_');
    assert '_' !in a;
    assert ColorOf(productColor) == Trim(a);
  }

  ghost predicate ValidProduct(g: ProductGroup) {
    ValidMap(g.colors) && forall c :: c in g.colors.entries ==> ValidMap(g.colors.entries[c])
  }

  ghost predicate ValidDetail(t: DetailTable) {
    ValidMap(t) && forall p :: p in t.entries ==> ValidProduct(t.entries[p])
  }

  /** `orderObj[code] || {}`. */
  function ProductOf(t: DetailTable, code: string): (g: ProductGroup)
    requires ValidDetail(t)
    ensures ValidProduct(g)
  {
    if code in t.entries then t.entries[code] else NewProduct
  }

  /** The updates one row makes to the object of its color: its size slot, then its
      manufacturing color. */
  function AddToColor(orderItems: ColorItems, row: DetailRow, color: string): (r: ColorItems)
    requires ValidMap(orderItems)
    ensures ValidMap(r)
  {
    Set(Set(orderItems, row.sizeCode, Item(row.(productColor := color))), MfgKey, Mfg(row.manufacturingColor))
  }

  /** The updates one row makes to its product's entry. */
  function AddToProduct(orderSet: ProductGroup, row: DetailRow): (g: ProductGroup)
    requires ValidProduct(orderSet)
    ensures ValidProduct(g)
  {
    var color := ColorOf(row.productColor);
    var orderItems := if color in orderSet.colors.entries then orderSet.colors.entries[color] else EmptyMap();
    ProductGroup(Set(orderSet.colors, color, AddToColor(orderItems, row, color)), row.info, orderSet.totalQty + row.orderQty)
  }

  /** The body of the `forEach` for one row. */
  function AddDetail(t: DetailTable, row: DetailRow): (r: DetailTable)
    requires ValidDetail(t)
    ensures ValidDetail(r)
  {
    Set(t, row.productCode, AddToProduct(ProductOf(t, row.productCode), row))
  }

  function GroupDetail(rows: seq<DetailRow>): (r: DetailTable)
    ensures ValidDetail(r)
  {
    if rows == [] then EmptyMap() else AddDetail(GroupDetail(rows[..|rows| - 1]), rows[|rows| - 1])
  }

  /** The body of the `forEach`, one row. */
  method AddDetailRow(orderObj: DetailTable, order: DetailRow) returns (out: DetailTable)
    requires ValidDetail(orderObj)
    ensures out == AddDetail(orderObj, order)
  {
    var orderSet := if order.productCode in orderObj.entries then orderObj.entries[order.productCode] else NewProduct;
    assert orderSet == ProductOf(orderObj, order.productCode);
    orderSet := UpdateProduct(orderSet, order);
    out := Set(orderObj, order.productCode, orderSet);
  }

  /** The part of the `forEach` body that updates the row's product entry `orderSet`. */
  method UpdateProduct(orderSet: ProductGroup, order: DetailRow) returns (updated: ProductGroup)
    requires ValidProduct(orderSet)
    ensures updated == AddToProduct(orderSet, order)
  {
    var productColor := ColorOf(order.productColor);
    var colorVariant := orderSet.colors;
    var orderItems := if productColor in colorVariant.entries then colorVariant.entries[productColor] else EmptyMap();
    ghost var items := orderItems;
    orderItems := Set(orderItems, order.sizeCode, Item(order.(productColor := productColor)));
    // `colorVariant[productColor]` is `orderItems` itself, so writing its
    // `manufacturingColor` writes `orderItems`.
    orderItems := Set(orderItems, MfgKey, Mfg(order.manufacturingColor));
    assert orderItems == AddToColor(items, order, productColor);
    colorVariant := Set(colorVariant, productColor, orderItems);
    updated := ProductGroup(colorVariant, order.info, orderSet.totalQty + order.orderQty);
  }

  /** The `forEach` that builds `orderObj`. */
  method GroupDetailRows(rows: seq<DetailRow>) returns (orderObj: DetailTable)
    ensures ValidDetail(orderObj)
    ensures orderObj == GroupDetail(rows)
  {
    orderObj := EmptyMap();
    for i := 0 to |rows|
      invariant orderObj == GroupDetail(rows[..i])
    {
      assert rows[..i + 1][..i] == rows[..i];
      orderObj := AddDetailRow(orderObj, rows[i]);
    }
    assert rows[..|rows|] == rows;
  }

  predicate SameItem(row: DetailRow, p: string, c: string, z: string) {
    row.productCode == p && ColorOf(row.productColor) == c && row.sizeCode == z
  }

  predicate HasItem(t: DetailTable, p: string, c: string, z: string) {
    p in t.entries && c in t.entries[p].colors.entries && z in t.entries[p].colors.entries[c].entries
  }

  /** The last row of product `p` with color `c`, if any. */
  function LastColorRow(rows: seq<DetailRow>, p: string, c: string): Option<DetailRow> {
    if rows == [] then None
    else if RowHasColor(rows[|rows| - 1], p, c) then Some(rows[|rows| - 1])
    else LastColorRow(rows[..|rows| - 1], p, c)
  }

  /** The last row for (product, color, size), if any. */
  function LastItem(rows: seq<DetailRow>, p: string, c: string, z: string): Option<DetailRow> {
    if rows == [] then None
    else if SameItem(rows[|rows| - 1], p, c, z) then Some(rows[|rows| - 1])
    else LastItem(rows[..|rows| - 1], p, c, z)
  }

  /** The sum of ORDER_QTY over the rows of product `p`. */
  function ProductQty(rows: seq<DetailRow>, p: string): int {
    if rows == [] then 0
    else ProductQty(rows[..|rows| - 1], p) + (if rows[|rows| - 1].productCode == p then rows[|rows| - 1].orderQty else 0)
  }

  /** The last row of product `p`, if any. */
  function LastOfProduct(rows: seq<DetailRow>, p: string): Option<DetailRow> {
    if rows == [] then None
    else if rows[|rows| - 1].productCode == p then Some(rows[|rows| - 1])
    else LastOfProduct(rows[..|rows| - 1], p)
  }

  /** One row touches only its own (product, color, size) slot, for a size code other
      than `MfgKey`. */
  lemma AddDetailItem(t: DetailTable, row: DetailRow, p: string, c: string, z: string)
    requires ValidDetail(t)
    ensures z != MfgKey && SameItem(row, p, c, z) ==>
      HasItem(AddDetail(t, row), p, c, z) &&
      AddDetail(t, row).entries[p].colors.entries[c].entries[z] == Item(row.(productColor := c))
    ensures z != MfgKey && !SameItem(row, p, c, z) ==>
      (HasItem(AddDetail(t, row), p, c, z) <==> HasItem(t, p, c, z)) &&
      (HasItem(t, p, c, z) ==>
        AddDetail(t, row).entries[p].colors.entries[c].entries[z] == t.entries[p].colors.entries[c].entries[z])
  {
    if row.productCode == p && z != MfgKey {
      var g := ProductOf(t, p);
      assert AddDetail(t, row).entries[p] == AddToProduct(g, row);
      AddToProductItem(g, row, c, z);
    }
  }

  /** The same, within one product's entry. */
  lemma AddToProductItem(g: ProductGroup, row: DetailRow, c: string, z: string)
    requires ValidProduct(g) && z != MfgKey
    ensures var g' := AddToProduct(g, row);
      if ColorOf(row.productColor) == c && row.sizeCode == z then
        c in g'.colors.entries && z in g'.colors.entries[c].entries &&
        g'.colors.entries[c].entries[z] == Item(row.(productColor := c))
      else
        (c in g'.colors.entries && z in g'.colors.entries[c].entries <==>
         c in g.colors.entries && z in g.colors.entries[c].entries) &&
        (c in g.colors.entries && z in g.colors.entries[c].entries ==>
         g'.colors.entries[c].entries[z] == g.colors.entries[c].entries[z])
  {
    var color := ColorOf(row.productColor);
    var g' := AddToProduct(g, row);
    var orderItems := if color in g.colors.entries then g.colors.entries[color] else EmptyMap();
    var items := AddToColor(orderItems, row, color);
    assert g'.colors.entries == g.colors.entries[color := items];
    if color == c {
      assert items.entries == orderItems.entries[row.sizeCode := Item(row.(productColor := color))][MfgKey := Mfg(row.manufacturingColor)];
    }
  }

  /** Every row writes the manufacturing color of its own (product, color) object and
      touches no other color object. */
  lemma AddDetailMfg(t: DetailTable, row: DetailRow, p: string, c: string)
    requires ValidDetail(t)
    ensures RowHasColor(row, p, c) ==>
      HasColor(AddDetail(t, row), p, c) && MfgKey in AddDetail(t, row).entries[p].colors.entries[c].entries &&
      AddDetail(t, row).entries[p].colors.entries[c].entries[MfgKey] == Mfg(row.manufacturingColor)
    ensures !RowHasColor(row, p, c) && HasColor(t, p, c) ==>
      AddDetail(t, row).entries[p].colors.entries[c] == t.entries[p].colors.entries[c]
  {
    if row.productCode == p {
      var g := ProductOf(t, p);
      var color := ColorOf(row.productColor);
      assert AddDetail(t, row).entries[p] == AddToProduct(g, row);
      var orderItems := if color in g.colors.entries then g.colors.entries[color] else EmptyMap();
      var items := AddToColor(orderItems, row, color);
      assert AddToProduct(g, row).colors.entries == g.colors.entries[color := items];
    }
  }

  /** A later row for the same product, color and size overwrites the earlier one: for a
      size code other than `MfgKey`, the slot exists exactly when some row has that
      triple, and holds the last such row with its color trimmed. */
  lemma {:induction false} GroupDetailItem(rows: seq<DetailRow>, p: string, c: string, z: string)
    ensures z != MfgKey ==> (HasItem(GroupDetail(rows), p, c, z) <==> LastItem(rows, p, c, z).Some?)
    ensures z != MfgKey && HasItem(GroupDetail(rows), p, c, z) ==>
      GroupDetail(rows).entries[p].colors.entries[c].entries[z] == Item(LastItem(rows, p, c, z).value.(productColor := c))
  {
    if rows != [] {
      GroupDetailItem(rows[..|rows| - 1], p, c, z);
      AddDetailItem(GroupDetail(rows[..|rows| - 1]), rows[|rows| - 1], p, c, z);
    }
  }

  /** The `MfgKey` slot of every color object holds the manufacturing color of the last
      row of that product and color; a row whose size code is `MfgKey` is overwritten by
      it. */
  lemma {:induction false} GroupDetailMfg(rows: seq<DetailRow>, p: string, c: string)
    ensures HasColor(GroupDetail(rows), p, c) <==> LastColorRow(rows, p, c).Some?
    ensures HasColor(GroupDetail(rows), p, c) ==>
      LastColorRow(rows, p, c).Some? && MfgKey in GroupDetail(rows).entries[p].colors.entries[c].entries &&
      GroupDetail(rows).entries[p].colors.entries[c].entries[MfgKey] == Mfg(LastColorRow(rows, p, c).value.manufacturingColor)
  {
    if rows != [] {
      var init := rows[..|rows| - 1];
      GroupDetailMfg(init, p, c);
      AddDetailMfg(GroupDetail(init), rows[|rows| - 1], p, c);
      AddDetailColor(GroupDetail(init), rows[|rows| - 1], p, c);
    }
  }

  /** The slot of a triple exists exactly when some row has it. */
  lemma LastItemExists(rows: seq<DetailRow>, p: string, c: string, z: string)
    ensures LastItem(rows, p, c, z).Some? <==> exists i :: 0 <= i < |rows| && SameItem(rows[i], p, c, z)
  {
    var f := (row: DetailRow) => SameItem(row, p, c, z);
    LastItemAny(rows, p, c, z);
    AnyWhereExists(rows, f);
  }

  lemma {:induction false} LastItemAny(rows: seq<DetailRow>, p: string, c: string, z: string)
    ensures LastItem(rows, p, c, z).Some? <==> AnyWhere(rows, (row: DetailRow) => SameItem(row, p, c, z))
  {
    if rows != [] {
      LastItemAny(rows[..|rows| - 1], p, c, z);
    }
  }

  /** A product's entry exists exactly when it has a row; its totalQty is the sum of its
      rows' ORDER_QTY and its product-level fields come from its last row. */
  lemma {:induction false} GroupDetailProduct(rows: seq<DetailRow>, p: string)
    ensures p in GroupDetail(rows).entries <==> LastOfProduct(rows, p).Some?
    ensures p in GroupDetail(rows).entries ==>
      GroupDetail(rows).entries[p].totalQty == ProductQty(rows, p) &&
      GroupDetail(rows).entries[p].info == LastOfProduct(rows, p).value.info
  {
    if rows != [] {
      var init := rows[..|rows| - 1];
      GroupDetailProduct(init, p);
      ProductStep(GroupDetail(init), init, rows[|rows| - 1], p);
      SplitLast(rows);
    }
  }

  /** What the entry of `p` in a table built from `rows` holds. */
  ghost predicate ProductFacts(t: DetailTable, rows: seq<DetailRow>, p: string) {
    (p in t.entries <==> LastOfProduct(rows, p).Some?) &&
    (p in t.entries ==>
      t.entries[p].totalQty == ProductQty(rows, p) && t.entries[p].info == LastOfProduct(rows, p).value.info)
  }

  lemma ProductStep(t: DetailTable, rows: seq<DetailRow>, row: DetailRow, p: string)
    requires ValidDetail(t) && ProductFacts(t, rows, p)
    ensures ProductFacts(AddDetail(t, row), rows + [row], p)
  {
    AppendLast(rows, row);
    var rows' := rows + [row];
    assert LastOfProduct(rows', p) == if row.productCode == p then Some(row) else LastOfProduct(rows, p);
    assert ProductQty(rows', p) == ProductQty(rows, p) + (if row.productCode == p then row.orderQty else 0);
    AddDetailProduct(t, row, p);
    if row.productCode == p && p !in t.entries {
      ProductQtyAbsent(rows, p);
    }
  }

  /** One row touches only its own product: its total grows by the row's quantity and
      its product-level fields become the row's. */
  lemma AddDetailProduct(t: DetailTable, row: DetailRow, p: string)
    requires ValidDetail(t)
    ensures row.productCode == p ==>
      p in AddDetail(t, row).entries &&
      AddDetail(t, row).entries[p].totalQty == (if p in t.entries then t.entries[p].totalQty else 0) + row.orderQty &&
      AddDetail(t, row).entries[p].info == row.info
    ensures row.productCode != p ==>
      (p in AddDetail(t, row).entries <==> p in t.entries) &&
      (p in t.entries ==> AddDetail(t, row).entries[p] == t.entries[p])
  {
  }

  lemma {:induction false} ProductQtyAbsent(rows: seq<DetailRow>, p: string)
    requires LastOfProduct(rows, p).None?
    ensures ProductQty(rows, p) == 0
  {
    if rows != [] {
      ProductQtyAbsent(rows[..|rows| - 1], p);
    }
  }

  /** One element of a product's `colorVariant` list. */
  datatype ColorEntry = ColorEntry(productColor: string, manufacturingColor: string, sizeVariant: ColorItems)

  /** One element of the answer of `order_detail`. */
  datatype OrderSet = OrderSet(productCode: string, info: ProductInfo, totalQty: int, colorVariant: seq<ColorEntry>)

  /** The element pushed for color `c`. */
  function ColorEntryOf(g: ProductGroup, c: string): ColorEntry
    requires c in g.colors.entries
  {
    ColorEntry(c, MfgOf(g.colors.entries[c]), g.colors.entries[c])
  }

  /** `orderItems.manufacturingColor`: the text under `MfgKey`, which every color object
      holds once a row has written it (`GroupDetailMfg`); the empty string stands for
      the case that does not arise. */
  function MfgOf(orderItems: ColorItems): string {
    if MfgKey in orderItems.entries && orderItems.entries[MfgKey].Mfg? then orderItems.entries[MfgKey].text else ""
  }

  /** The elements pushed for the colors `cs`, in that order. */
  function ColorList(g: ProductGroup, cs: seq<string>): (r: seq<ColorEntry>)
    requires forall c :: c in cs ==> c in g.colors.entries
    ensures |r| == |cs|
  {
    if cs == [] then [] else ColorList(g, cs[..|cs| - 1]) + [ColorEntryOf(g, cs[|cs| - 1])]
  }

  /** The element of `ColorList` at each position is that of the color there. */
  lemma {:induction false} ColorListAt(g: ProductGroup, cs: seq<string>)
    requires forall c :: c in cs ==> c in g.colors.entries
    ensures forall i :: 0 <= i < |cs| ==> ColorList(g, cs)[i] == ColorEntryOf(g, cs[i])
  {
    if cs != [] {
      ColorListAt(g, cs[..|cs| - 1]);
    }
  }

  /** The colors of a product in `for...in` order. */
  function ColorEntries(g: ProductGroup): (r: seq<ColorEntry>)
    requires ValidProduct(g)
  {
    OwnKeysMembers(g.colors.keys);
    ColorList(g, OwnKeys(g.colors.keys))
  }

  /** The element pushed for product `k`. */
  function EntryOf(t: DetailTable, k: string): OrderSet
    requires ValidDetail(t) && k in t.entries
  {
    OrderSet(k, t.entries[k].info, t.entries[k].totalQty, ColorEntries(t.entries[k]))
  }

  function EntryList(t: DetailTable, ks: seq<string>): (r: seq<OrderSet>)
    requires ValidDetail(t) && forall k :: k in ks ==> k in t.entries
    ensures |r| == |ks|
  {
    if ks == [] then [] else EntryList(t, ks[..|ks| - 1]) + [EntryOf(t, ks[|ks| - 1])]
  }

  /** The element of `EntryList` at each position is that of the key there. */
  lemma {:induction false} EntryListAt(t: DetailTable, ks: seq<string>)
    requires ValidDetail(t) && forall k :: k in ks ==> k in t.entries
    ensures forall i :: 0 <= i < |ks| ==> EntryList(t, ks)[i] == EntryOf(t, ks[i])
  {
    if ks != [] {
      EntryListAt(t, ks[..|ks| - 1]);
    }
  }

  /** The products of `orderObj` in `for...in` order. */
  function DetailList(t: DetailTable): (r: seq<OrderSet>)
    requires ValidDetail(t)
  {
    OwnKeysMembers(t.keys);
    EntryList(t, OwnKeys(t.keys))
  }

  /** The inner `for...in` over the colors of one product. */
  method ListColors(g: ProductGroup) returns (colorVariant: seq<ColorEntry>)
    requires ValidProduct(g)
    ensures colorVariant == ColorEntries(g)
  {
    var keys := OwnKeys(g.colors.keys);
    OwnKeysMembers(g.colors.keys);
    colorVariant := [];
    for i := 0 to |keys|
      invariant forall c :: c in keys[..i] ==> c in g.colors.entries
      invariant colorVariant == ColorList(g, keys[..i])
    {
      ColorListStep(g, keys, i);
      var color := keys[i];
      colorVariant := colorVariant + [ColorEntry(color, MfgOf(g.colors.entries[color]), g.colors.entries[color])];
    }
    assert keys[..|keys|] == keys;
  }

  lemma ColorListStep(g: ProductGroup, cs: seq<string>, i: nat)
    requires i < |cs| && forall c :: c in cs ==> c in g.colors.entries
    ensures forall c :: c in cs[..i + 1] ==> c in g.colors.entries
    ensures ColorList(g, cs[..i + 1]) == ColorList(g, cs[..i]) + [ColorEntryOf(g, cs[i])]
  {
    PrefixStep(cs, i);
  }

  /** The outer `for...in` that turns `orderObj` into the answer list. */
  method ListProducts(orderObj: DetailTable) returns (orderList: seq<OrderSet>)
    requires ValidDetail(orderObj)
    ensures orderList == DetailList(orderObj)
  {
    var keys := OwnKeys(orderObj.keys);
    OwnKeysMembers(orderObj.keys);
    orderList := [];
    for i := 0 to |keys|
      invariant forall k :: k in keys[..i] ==> k in orderObj.entries
      invariant orderList == EntryList(orderObj, keys[..i])
    {
      EntryListStep(orderObj, keys, i);
      var orderSet := ListProduct(orderObj, keys[i]);
      orderList := orderList + [orderSet];
    }
    assert keys[..|keys|] == keys;
  }

  /** The body of the outer `for...in`: the element for product `item`. */
  method ListProduct(orderObj: DetailTable, item: string) returns (entry: OrderSet)
    requires ValidDetail(orderObj) && item in orderObj.entries
    ensures entry == EntryOf(orderObj, item)
  {
    var orderSet := orderObj.entries[item];
    var colorVariant := ListColors(orderSet);
    entry := OrderSet(item, orderSet.info, orderSet.totalQty, colorVariant);
  }

  lemma EntryListStep(t: DetailTable, ks: seq<string>, i: nat)
    requires ValidDetail(t) && i < |ks| && forall k :: k in ks ==> k in t.entries
    ensures forall k :: k in ks[..i + 1] ==> k in t.entries
    ensures EntryList(t, ks[..i + 1]) == EntryList(t, ks[..i]) + [EntryOf(t, ks[i])]
  {
    PrefixStep(ks, i);
  }

  function ColorNames(cs: seq<ColorEntry>): (r: seq<string>)
    ensures |r| == |cs| && forall i :: 0 <= i < |cs| ==> r[i] == cs[i].productColor
  {
    if cs == [] then [] else ColorNames(cs[..|cs| - 1]) + [cs[|cs| - 1].productColor]
  }

  /** The names of a product's listed colors are its color keys in `for...in` order. */
  lemma ColorEntriesNames(g: ProductGroup)
    requires ValidProduct(g)
    ensures ColorNames(ColorEntries(g)) == OwnKeys(g.colors.keys)
  {
    OwnKeysMembers(g.colors.keys);
    ColorListNames(g, OwnKeys(g.colors.keys));
  }

  lemma {:induction false} ColorListNames(g: ProductGroup, cs: seq<string>)
    requires forall c :: c in cs ==> c in g.colors.entries
    ensures ColorNames(ColorList(g, cs)) == cs
  {
    if cs != [] {
      ColorListNames(g, cs[..|cs| - 1]);
      SplitLast(cs);
    }
  }

  function ProductCodes(list: seq<OrderSet>): (r: seq<string>)
    ensures |r| == |list| && forall i :: 0 <= i < |list| ==> r[i] == list[i].productCode
  {
    if list == [] then [] else ProductCodes(list[..|list| - 1]) + [list[|list| - 1].productCode]
  }

  lemma {:induction false} EntryListCodes(t: DetailTable, ks: seq<string>)
    requires ValidDetail(t) && forall k :: k in ks ==> k in t.entries
    ensures ProductCodes(EntryList(t, ks)) == ks
  {
    if ks != [] {
      EntryListCodes(t, ks[..|ks| - 1]);
      SplitLast(ks);
    }
  }

  /** The keys of a valid map are distinct. */
  lemma ValidMapDistinct<K(!new), V>(m: JsMap<K, V>)
    requires ValidMap(m)
    ensures Distinct(m.keys)
  {
  }

  /** A product's listed colors are named by distinct keys. */
  lemma ColorEntriesDistinct(g: ProductGroup)
    requires ValidProduct(g)
    ensures Distinct(ColorNames(ColorEntries(g)))
  {
    ValidMapDistinct(g.colors);
    OwnKeysDistinct(g.colors.keys);
    ColorEntriesNames(g);
  }

  /** The answer holds one element per key of `orderObj`, in `for...in` order, each
      carrying its product's fields and its colors. */
  lemma DetailListShape(t: DetailTable)
    requires ValidDetail(t)
    ensures ProductCodes(DetailList(t)) == OwnKeys(t.keys)
    ensures Distinct(ProductCodes(DetailList(t)))
    ensures forall i :: 0 <= i < |DetailList(t)| ==>
      var code := DetailList(t)[i].productCode;
      code in t.entries && DetailList(t)[i].info == t.entries[code].info &&
      DetailList(t)[i].totalQty == t.entries[code].totalQty &&
      Distinct(ColorNames(DetailList(t)[i].colorVariant))
  {
    OwnKeysMembers(t.keys);
    var ks := OwnKeys(t.keys);
    EntryListCodes(t, ks);
    EntryListAt(t, ks);
    ValidMapDistinct(t);
    OwnKeysDistinct(t.keys);
    var list := DetailList(t);
    forall i | 0 <= i < |list|
      ensures list[i].productCode in t.entries && list[i].info == t.entries[list[i].productCode].info &&
        list[i].totalQty == t.entries[list[i].productCode].totalQty &&
        Distinct(ColorNames(list[i].colorVariant))
    {
      assert list[i] == EntryOf(t, ks[i]);
      ColorEntriesDistinct(t.entries[ks[i]]);
    }
  }

  /** A product is listed exactly when it is a key of `orderObj`. */
  lemma DetailListEntry(t: DetailTable, p: string)
    requires ValidDetail(t)
    ensures p in ProductCodes(DetailList(t)) <==> p in t.entries
  {
    DetailListShape(t);
    OwnKeysMembers(t.keys);
  }

  /** The element of a listed product carries that product's fields. */
  lemma DetailListFields(t: DetailTable, p: string)
    requires ValidDetail(t)
    ensures forall e :: e in DetailList(t) && e.productCode == p ==>
      p in t.entries && e.totalQty == t.entries[p].totalQty && e.info == t.entries[p].info &&
      e.colorVariant == ColorEntries(t.entries[p])
  {
    OwnKeysMembers(t.keys);
    var ks := OwnKeys(t.keys);
    var list := DetailList(t);
    EntryListAt(t, ks);
    forall e | e in list && e.productCode == p
      ensures p in t.entries && e.totalQty == t.entries[p].totalQty && e.info == t.entries[p].info &&
        e.colorVariant == ColorEntries(t.entries[p])
    {
      var i :| 0 <= i < |list| && list[i] == e;
      assert e == EntryOf(t, ks[i]);
    }
  }

  /** The answer lists exactly the products that have a row, each once, with the sum of
      its quantities and the product-level fields of its last row. */
  lemma DetailListProducts(rows: seq<DetailRow>, p: string)
    ensures p in ProductCodes(DetailList(GroupDetail(rows))) <==> LastOfProduct(rows, p).Some?
    ensures Distinct(ProductCodes(DetailList(GroupDetail(rows))))
    ensures forall e :: e in DetailList(GroupDetail(rows)) && e.productCode == p ==>
      e.totalQty == ProductQty(rows, p) && e.info == LastOfProduct(rows, p).value.info
  {
    var t := GroupDetail(rows);
    GroupDetailProduct(rows, p);
    DetailListShape(t);
    DetailListEntry(t, p);
    DetailListFields(t, p);
  }

  /** A color of product `p` is listed exactly when some row of `p` has it. */
  lemma DetailListColors(rows: seq<DetailRow>, p: string, c: string)
    requires p in GroupDetail(rows).entries
    ensures c in ColorNames(ColorEntries(GroupDetail(rows).entries[p])) <==> SomeRowHasColor(rows, p, c)
  {
    var t := GroupDetail(rows);
    GroupDetailColor(rows, p, c);
    ColorEntryMember(t.entries[p], c);
  }

  /** Each listed color carries its color object as `sizeVariant`, and the text that
      object holds under `MfgKey`, when it holds one, as `manufacturingColor`. */
  lemma ColorEntriesMfg(g: ProductGroup)
    requires ValidProduct(g)
    ensures forall e :: e in ColorEntries(g) ==>
      e.productColor in g.colors.entries && e.sizeVariant == g.colors.entries[e.productColor] &&
      (MfgKey in e.sizeVariant.entries && e.sizeVariant.entries[MfgKey].Mfg? ==>
        e.sizeVariant.entries[MfgKey] == Mfg(e.manufacturingColor))
  {
    OwnKeysMembers(g.colors.keys);
    var cs := OwnKeys(g.colors.keys);
    ColorListAt(g, cs);
    forall e | e in ColorEntries(g)
      ensures e.productColor in g.colors.entries && e.sizeVariant == g.colors.entries[e.productColor] &&
        (MfgKey in e.sizeVariant.entries && e.sizeVariant.entries[MfgKey].Mfg? ==>
          e.sizeVariant.entries[MfgKey] == Mfg(e.manufacturingColor))
    {
      var i :| 0 <= i < |cs| && ColorEntries(g)[i] == e;
      assert e == ColorEntryOf(g, cs[i]);
    }
  }

  /** Every color listed for product `p` carries, as `sizeVariant`, the object built from
      the rows of that product and color, and as `manufacturingColor` the manufacturing
      color of the last of those rows, which the object also holds under `MfgKey`. */
  lemma DetailListMfg(rows: seq<DetailRow>, p: string, c: string)
    ensures forall e, ce :: e in DetailList(GroupDetail(rows)) && e.productCode == p && ce in e.colorVariant && ce.productColor == c ==>
      LastColorRow(rows, p, c).Some? && ce.manufacturingColor == LastColorRow(rows, p, c).value.manufacturingColor &&
      MfgKey in ce.sizeVariant.entries && ce.sizeVariant.entries[MfgKey] == Mfg(ce.manufacturingColor) &&
      HasColor(GroupDetail(rows), p, c) && ce.sizeVariant == GroupDetail(rows).entries[p].colors.entries[c]
  {
    var t := GroupDetail(rows);
    DetailListFields(t, p);
    if p in t.entries {
      ProductColorsMfg(rows, p, c);
    }
  }

  /** The same, for the color list of one product. */
  lemma ProductColorsMfg(rows: seq<DetailRow>, p: string, c: string)
    requires p in GroupDetail(rows).entries
    ensures forall ce :: ce in ColorEntries(GroupDetail(rows).entries[p]) && ce.productColor == c ==>
      LastColorRow(rows, p, c).Some? && ce.manufacturingColor == LastColorRow(rows, p, c).value.manufacturingColor &&
      MfgKey in ce.sizeVariant.entries && ce.sizeVariant.entries[MfgKey] == Mfg(ce.manufacturingColor) &&
      HasColor(GroupDetail(rows), p, c) && ce.sizeVariant == GroupDetail(rows).entries[p].colors.entries[c]
  {
    var g := GroupDetail(rows).entries[p];
    GroupDetailMfg(rows, p, c);
    ColorEntriesMfg(g);
    forall ce | ce in ColorEntries(g) && ce.productColor == c
      ensures ce.sizeVariant == g.colors.entries[c] &&
        ce.sizeVariant.entries[MfgKey] == Mfg(LastColorRow(rows, p, c).value.manufacturingColor)
    {
    }
  }

  /** A color is listed exactly when it is a key of the product's colors. */
  lemma ColorEntryMember(g: ProductGroup, c: string)
    requires ValidProduct(g)
    ensures c in ColorNames(ColorEntries(g)) <==> c in g.colors.entries
  {
    ColorEntriesNames(g);
    OwnKeysMembers(g.colors.keys);
  }

  predicate HasColor(t: DetailTable, p: string, c: string) {
    p in t.entries && c in t.entries[p].colors.entries
  }

  predicate RowHasColor(row: DetailRow, p: string, c: string) {
    row.productCode == p && ColorOf(row.productColor) == c
  }

  lemma AddDetailColor(t: DetailTable, row: DetailRow, p: string, c: string)
    requires ValidDetail(t)
    ensures HasColor(AddDetail(t, row), p, c) <==> HasColor(t, p, c) || RowHasColor(row, p, c)
  {
  }

  /** Some row of product `p` has color `c`. */
  predicate SomeRowHasColor(rows: seq<DetailRow>, p: string, c: string) {
    rows != [] && (SomeRowHasColor(rows[..|rows| - 1], p, c) || RowHasColor(rows[|rows| - 1], p, c))
  }

  lemma SomeRowHasColorExists(rows: seq<DetailRow>, p: string, c: string)
    ensures SomeRowHasColor(rows, p, c) <==> exists i :: 0 <= i < |rows| && RowHasColor(rows[i], p, c)
  {
    var f := (row: DetailRow) => RowHasColor(row, p, c);
    SomeRowHasColorAny(rows, p, c);
    AnyWhereExists(rows, f);
  }

  lemma {:induction false} SomeRowHasColorAny(rows: seq<DetailRow>, p: string, c: string)
    ensures SomeRowHasColor(rows, p, c) <==> AnyWhere(rows, (row: DetailRow) => RowHasColor(row, p, c))
  {
    if rows != [] {
      SomeRowHasColorAny(rows[..|rows| - 1], p, c);
    }
  }

  /** A product has a color exactly when one of its rows has it. */
  lemma {:induction false} GroupDetailColor(rows: seq<DetailRow>, p: string, c: string)
    ensures HasColor(GroupDetail(rows), p, c) <==> SomeRowHasColor(rows, p, c)
  {
    if rows != [] {
      GroupDetailColor(rows[..|rows| - 1], p, c);
      AddDetailColor(GroupDetail(rows[..|rows| - 1]), rows[|rows| - 1], p, c);
    }
  }

  lemma {:induction false} NoRowsOfProduct(rows: seq<DetailRow>, p: string)
    requires LastOfProduct(rows, p).None?
    ensures forall i :: 0 <= i < |rows| ==> rows[i].productCode != p
  {
    if rows != [] {
      NoRowsOfProduct(rows[..|rows| - 1], p);
    }
  }

  // ---------------------------------------------------------------------
  // Labels: filtering and pages of four
  // ---------------------------------------------------------------------

  /** The label columns the handler reads; a database NULL is `None`. */
  datatype LabelRow = LabelRow(
    stdSku: Option<string>, name: Option<string>, size: Option<string>,
    color: Option<string>, imagePath: Option<string>)

  /** A label can be printed when its COLOR, IMAGE_PATH and SIZE are all non-empty. */
  predicate Printable(v: LabelRow) {
    |OrEmpty(v.color)| >= 1 && |OrEmpty(v.imagePath)| >= 1 && |OrEmpty(v.size)| >= 1
  }

  /** The line logged for a label that cannot be printed. */
  function UnvalidLine(productCode: string, v: LabelRow): string {
    productCode + "\t" + Render(v.stdSku) + "\t" + Render(v.name) + "\t" + Render(v.size) + "\t" +
    Render(v.color) + "\t" + Render(v.imagePath)
  }

  /** The `filter` callback over the whole list: the printable rows in order, and the
      log lines of the others in order. */
  method FilterLabels(productCode: string, labelList: seq<LabelRow>)
    returns (kept: seq<LabelRow>, unvalidList: seq<string>)
    ensures forall v :: v in kept ==> v in labelList && Printable(v)
    ensures forall v :: v in labelList && Printable(v) ==> v in kept
    ensures |kept| + |unvalidList| == |labelList|
    ensures kept == PrintableRows(labelList)
    ensures unvalidList == UnvalidLines(productCode, labelList)
  {
    kept := [];
    unvalidList := [];
    for i := 0 to |labelList|
      invariant kept == PrintableRows(labelList[..i])
      invariant unvalidList == UnvalidLines(productCode, labelList[..i])
      invariant |kept| + |unvalidList| == i
    {
      assert labelList[..i + 1][..i] == labelList[..i];
      var v := labelList[i];
      if |OrEmpty(v.color)| < 1 || |OrEmpty(v.imagePath)| < 1 || |OrEmpty(v.size)| < 1 {
        unvalidList := unvalidList + [UnvalidLine(productCode, v)];
      } else {
        kept := kept + [v];
      }
    }
    assert labelList[..|labelList|] == labelList;
    PrintableRowsMembers(labelList);
  }

  function PrintableRows(list: seq<LabelRow>): seq<LabelRow> {
    if list == [] then []
    else PrintableRows(list[..|list| - 1]) + (if Printable(list[|list| - 1]) then [list[|list| - 1]] else [])
  }

  function UnvalidLines(productCode: string, list: seq<LabelRow>): seq<string> {
    if list == [] then []
    else
      UnvalidLines(productCode, list[..|list| - 1]) +
      (if Printable(list[|list| - 1]) then [] else [UnvalidLine(productCode, list[|list| - 1])])
  }

  /** The kept rows are exactly the printable ones. */
  lemma {:induction false} PrintableRowsMembers(list: seq<LabelRow>)
    ensures forall v :: v in PrintableRows(list) <==> v in list && Printable(v)
  {
    if list != [] {
      PrintableRowsMembers(list[..|list| - 1]);
      assert list == list[..|list| - 1] + [list[|list| - 1]];
    }
  }

  /** The text appended to the log file: the lines joined by newlines, plus a final
      newline (so an empty list still appends one). */
  function UnvalidText(lines: seq<string>): (r: string)
    ensures lines == [] ==> r == "\n"
    ensures r != [] && r[|r| - 1] == '\n'
  {
    (if lines == [] then "" else Join(lines, '\n')) + "\n"
  }

  function Flatten<T>(chunks: seq<seq<T>>): seq<T> {
    if chunks == [] then [] else Flatten(chunks[..|chunks| - 1]) + chunks[|chunks| - 1]
  }

  /** Opening an empty chunk leaves the concatenation as it was. */
  lemma FlattenOpen<T>(chunks: seq<seq<T>>)
    ensures Flatten(chunks + [[]]) == Flatten(chunks)
  {
    assert (chunks + [[]])[..|chunks|] == chunks;
  }

  /** Adding an item to the last chunk adds it to the end of the concatenation. */
  lemma FlattenGrowLast<T>(chunks: seq<seq<T>>, x: T)
    requires chunks != []
    ensures Flatten(chunks[|chunks| - 1 := chunks[|chunks| - 1] + [x]]) == Flatten(chunks) + [x]
  {
    var n := |chunks| - 1;
    assert chunks[n := chunks[n] + [x]][..n] == chunks[..n];
  }

  /** Item `i` opens a new chunk exactly when `i` is a multiple of 4. */
  lemma ChunkCount(i: nat)
    ensures i % 4 == 0 ==> i / 4 == (i + 3) / 4 && (i + 4) / 4 == i / 4 + 1
    ensures i % 4 != 0 ==> i / 4 == (i + 3) / 4 - 1 && (i + 4) / 4 == (i + 3) / 4
    ensures i == 4 * (i / 4) + i % 4 && 0 <= i % 4 < 4
  {
  }

  /** Every chunk but the last holds 4 items, the last holds 1 to 4. */
  predicate FullChunks<T>(chunks: seq<seq<T>>) {
    (forall k :: 0 <= k < |chunks| - 1 ==> |chunks[k]| == 4) &&
    (chunks != [] ==> 1 <= |chunks[|chunks| - 1]| <= 4)
  }

  /** The `reduce` that puts item `i` into chunk `i / 4`: the chunks concatenate back to
      the input, every chunk but the last is full, and there are ceil(n / 4) of them. */
  method ChunkByFour<T>(items: seq<T>) returns (acc: seq<seq<T>>)
    ensures Flatten(acc) == items
    ensures FullChunks(acc)
    ensures |acc| == (|items| + 3) / 4
  {
    acc := [];
    for i := 0 to |items|
      invariant ChunksSoFar(acc, items[..i])
    {
      ghost var before := acc;
      ChunkCount(i);
      var index := i / 4;
      if |acc| < index + 1 {
        acc := acc + [[]];
      }
      var last := acc[index] + [items[i]];
      acc := acc[index := last];
      ChunkStep(before, items[..i], items[i]);
      assert items[..i + 1] == items[..i] + [items[i]];
    }
    assert items[..|items|] == items;
  }

  /** The state of the `reduce` after the items `done`. */
  ghost predicate ChunksSoFar<T>(acc: seq<seq<T>>, done: seq<T>) {
    Flatten(acc) == done && FullChunks(acc) && |acc| == (|done| + 3) / 4 &&
    (acc != [] ==> |acc[|acc| - 1]| == |done| - 4 * (|acc| - 1))
  }

  /** One step of the `reduce`: item `x` goes into chunk `|done| / 4`, which is opened
      first when it does not exist yet. */
  lemma ChunkStep<T>(acc: seq<seq<T>>, done: seq<T>, x: T)
    requires ChunksSoFar(acc, done)
    ensures var a := if |acc| < |done| / 4 + 1 then acc + [[]] else acc;
      |done| / 4 == |a| - 1 &&
      ChunksSoFar(a[|done| / 4 := a[|done| / 4] + [x]], done + [x])
  {
    ChunkCount(|done|);
    var a := if |acc| < |done| / 4 + 1 then acc + [[]] else acc;
    if |acc| < |done| / 4 + 1 {
      FlattenOpen(acc);
    }
    assert Flatten(a) == done;
    FlattenGrowLast(a, x);
  }

  /** The handler's guard: a missing or empty product code is refused with 400. */
  function LabelsGuard(productCode: Option<string>): (r: Option<Reply>)
    ensures r.Some? <==> !Truthy(productCode)
    ensures r.Some? ==> r.value == Json(400, "Product id is null")
  {
    if |OrEmpty(Or(productCode, Some("")))| < 1 then Some(Json(400, "Product id is null")) else None
  }

  // ---------------------------------------------------------------------
  // Purchase-order e-mail: grouping by vendor and padding
  // ---------------------------------------------------------------------

  /** One element of `orderListByVendor`: the vendor fields of its first order set and
      all of that vendor's order sets. */
  datatype VendorOrders = VendorOrders(
    vendorCode: string, vendorName: string, vendorEmail: string, ordersFrom: Option<string>,
    employeeId: string, employeeName: Option<string>, orderDate: string, orderSeq: int,
    orderList: seq<OrderSet>)

  function VendorOf(o: OrderSet): string {
    o.info.vendorCode
  }

  /** A new vendor entry started by order set `o`. */
  function NewVendor(o: OrderSet): VendorOrders {
    VendorOrders(o.info.vendorCode, o.info.vendorName, o.info.vendorEmail, o.info.ordersFrom,
      o.info.employeeId, o.info.employeeName, o.info.orderDate, o.info.orderSeq, [])
  }

  /** The position of vendor `code` among the groups, if it has one. */
  function FindVendor(groups: seq<VendorOrders>, code: string): (r: Option<nat>)
    ensures r.Some? ==> r.value < |groups| && groups[r.value].vendorCode == code
    ensures r.None? ==> forall k :: 0 <= k < |groups| ==> groups[k].vendorCode != code
  {
    if groups == [] then None
    else if groups[|groups| - 1].vendorCode == code then Some(|groups| - 1)
    else FindVendor(groups[..|groups| - 1], code)
  }

  /** One step of the `forEach`: a new vendor gets a new entry at the end, then the
      order set joins its vendor's entry. */
  function AddToVendor(groups: seq<VendorOrders>, o: OrderSet): seq<VendorOrders> {
    var g := if FindVendor(groups, VendorOf(o)).None? then groups + [NewVendor(o)] else groups;
    var k := FindVendor(g, VendorOf(o)).value;
    g[k := g[k].(orderList := g[k].orderList + [o])]
  }

  function VendorGroups(list: seq<OrderSet>): seq<VendorOrders> {
    if list == [] then [] else AddToVendor(VendorGroups(list[..|list| - 1]), list[|list| - 1])
  }

  /** `indices` maps each vendor code to the position of its entry. */
  ghost predicate IndexOfVendors(indices: map<string, nat>, groups: seq<VendorOrders>) {
    forall c :: (c in indices <==> FindVendor(groups, c).Some?) &&
      (c in indices ==> indices[c] == FindVendor(groups, c).value)
  }

  /** The grouping loop of `sendEmail`, with `indices` as a map. */
  method GroupByVendor(orderList: seq<OrderSet>) returns (orderListByVendor: seq<VendorOrders>)
    ensures orderListByVendor == VendorGroups(orderList)
  {
    var indices: map<string, nat> := map[];
    orderListByVendor := [];
    for i := 0 to |orderList|
      invariant orderListByVendor == VendorGroups(orderList[..i])
      invariant IndexOfVendors(indices, orderListByVendor)
    {
      PrefixStep(orderList, i);
      orderListByVendor, indices := PushToVendor(orderListByVendor, indices, orderList[i]);
    }
    assert orderList[..|orderList|] == orderList;
  }

  /** The body of that loop: start an entry for a new vendor, then append the order set
      to its vendor's entry. */
  method PushToVendor(groups: seq<VendorOrders>, indices: map<string, nat>, orderSet: OrderSet)
    returns (groups': seq<VendorOrders>, indices': map<string, nat>)
    requires IndexOfVendors(indices, groups)
    ensures groups' == AddToVendor(groups, orderSet)
    ensures IndexOfVendors(indices', groups')
  {
    var code := orderSet.info.vendorCode;
    if code !in indices {
      NewVendorIndexed(indices, groups, orderSet);
      groups' := groups + [NewVendor(orderSet)];
      indices' := indices[code := |groups|];
    } else {
      groups' := groups;
      indices' := indices;
    }
    var k := indices'[code];
    var entry := groups'[k].(orderList := groups'[k].orderList + [orderSet]);
    FindVendorUpdate(groups', k, entry);
    groups' := groups'[k := entry];
  }

  /** Starting an entry for a vendor that has none keeps `indices` in step. */
  lemma NewVendorIndexed(indices: map<string, nat>, groups: seq<VendorOrders>, o: OrderSet)
    requires IndexOfVendors(indices, groups) && o.info.vendorCode !in indices
    ensures FindVendor(groups, VendorOf(o)).None?
    ensures IndexOfVendors(indices[o.info.vendorCode := |groups|], groups + [NewVendor(o)])
  {
    FindVendorAppend(groups, NewVendor(o));
  }

  lemma FindVendorAppend(groups: seq<VendorOrders>, v: VendorOrders)
    requires FindVendor(groups, v.vendorCode).None?
    ensures forall c ::
      FindVendor(groups + [v], c) == (if c == v.vendorCode then Some(|groups|) else FindVendor(groups, c))
  {
    forall c ensures FindVendor(groups + [v], c) == (if c == v.vendorCode then Some(|groups|) else FindVendor(groups, c)) {
      assert (groups + [v])[..|groups|] == groups;
    }
  }

  /** Changing an entry but not its vendor code leaves every lookup as it was. */
  lemma {:induction false} FindVendorUpdate(groups: seq<VendorOrders>, k: nat, v: VendorOrders)
    requires k < |groups| && v.vendorCode == groups[k].vendorCode
    ensures forall c :: FindVendor(groups[k := v], c) == FindVendor(groups, c)
  {
    if k < |groups| - 1 {
      FindVendorUpdate(groups[..|groups| - 1], k, v);
      assert groups[k := v][..|groups| - 1] == groups[..|groups| - 1][k := v];
    } else {
      assert groups[k := v][..|groups| - 1] == groups[..|groups| - 1];
    }
  }

  function VendorCodes(groups: seq<VendorOrders>): (r: seq<string>)
    ensures |r| == |groups| && forall k :: 0 <= k < |groups| ==> r[k] == groups[k].vendorCode
  {
    if groups == [] then [] else VendorCodes(groups[..|groups| - 1]) + [groups[|groups| - 1].vendorCode]
  }

  function Codes(list: seq<OrderSet>): (r: seq<string>)
    ensures |r| == |list| && forall i :: 0 <= i < |list| ==> r[i] == VendorOf(list[i])
  {
    if list == [] then [] else Codes(list[..|list| - 1]) + [VendorOf(list[|list| - 1])]
  }

  /** The order sets of one vendor, in input order. */
  function OrdersOf(list: seq<OrderSet>, code: string): seq<OrderSet> {
    if list == [] then []
    else OrdersOf(list[..|list| - 1], code) + (if VendorOf(list[|list| - 1]) == code then [list[|list| - 1]] else [])
  }

  /** An entry's vendor fields are those of its first order set. */
  predicate HeadedByFirst(g: VendorOrders) {
    g.orderList != [] && g == NewVendor(g.orderList[0]).(orderList := g.orderList)
  }

  /** What the groups built from `list` satisfy: distinct vendor codes, each group
      holding its vendor's order sets headed by the first, and no order set of a
      vendor without a group. */
  ghost predicate GroupsOf(groups: seq<VendorOrders>, list: seq<OrderSet>) {
    Distinct(VendorCodes(groups)) &&
    (forall k :: 0 <= k < |groups| ==>
      groups[k].orderList == OrdersOf(list, groups[k].vendorCode) && HeadedByFirst(groups[k])) &&
    (forall c :: c !in VendorCodes(groups) ==> OrdersOf(list, c) == [])
  }

  /** One step of the grouping keeps `GroupsOf` and appends a vendor code exactly when
      the order set's vendor is new. */
  lemma AddToVendorStep(groups: seq<VendorOrders>, list: seq<OrderSet>, o: OrderSet)
    requires GroupsOf(groups, list)
    ensures GroupsOf(AddToVendor(groups, o), list + [o])
    ensures VendorCodes(AddToVendor(groups, o)) ==
      VendorCodes(groups) + (if VendorOf(o) in VendorCodes(groups) then [] else [VendorOf(o)])
  {
    AddToVendorCodes(groups, o);
    AddToVendorLists(groups, list, o);
    var r := AddToVendor(groups, o);
    forall c | c !in VendorCodes(r) ensures OrdersOf(list + [o], c) == [] {
      OrdersOfAppend(list, o, c);
    }
  }

  /** Where a step puts the order set: at the end of a new entry, or at the end of the
      existing entry of its vendor. */
  lemma AddToVendorShape(groups: seq<VendorOrders>, o: OrderSet)
    ensures var r := AddToVendor(groups, o);
      if VendorOf(o) in VendorCodes(groups) then
        var j := FindVendor(groups, VendorOf(o)).value;
        r == groups[j := groups[j].(orderList := groups[j].orderList + [o])]
      else
        r == groups + [NewVendor(o).(orderList := [o])]
    ensures |AddToVendor(groups, o)| == |groups| + (if VendorOf(o) in VendorCodes(groups) then 0 else 1)
  {
    FindVendorCodes(groups, VendorOf(o));
    if FindVendor(groups, VendorOf(o)).None? {
      AddNewVendor(groups, o);
    }
  }

  /** The vendors with an entry are those of the listed codes. */
  lemma {:induction false} FindVendorCodes(groups: seq<VendorOrders>, code: string)
    ensures FindVendor(groups, code).Some? <==> code in VendorCodes(groups)
  {
    if groups != [] {
      FindVendorCodes(groups[..|groups| - 1], code);
    }
  }

  lemma AddNewVendor(groups: seq<VendorOrders>, o: OrderSet)
    requires FindVendor(groups, VendorOf(o)).None?
    ensures AddToVendor(groups, o) == groups + [NewVendor(o).(orderList := [o])]
  {
    var g := groups + [NewVendor(o)];
    assert FindVendor(g, VendorOf(o)) == Some(|groups|);
    assert g[|groups|].orderList + [o] == [o];
    assert g[|groups| := NewVendor(o).(orderList := [o])] == groups + [NewVendor(o).(orderList := [o])];
  }

  lemma AddToVendorCodes(groups: seq<VendorOrders>, o: OrderSet)
    requires Distinct(VendorCodes(groups))
    ensures VendorCodes(AddToVendor(groups, o)) ==
      VendorCodes(groups) + (if VendorOf(o) in VendorCodes(groups) then [] else [VendorOf(o)])
    ensures Distinct(VendorCodes(AddToVendor(groups, o)))
  {
    AddToVendorShape(groups, o);
  }

  lemma AddToVendorLists(groups: seq<VendorOrders>, list: seq<OrderSet>, o: OrderSet)
    requires GroupsOf(groups, list)
    ensures forall k :: 0 <= k < |AddToVendor(groups, o)| ==>
      AddToVendor(groups, o)[k].orderList == OrdersOf(list + [o], AddToVendor(groups, o)[k].vendorCode) &&
      HeadedByFirst(AddToVendor(groups, o)[k])
  {
    AddToVendorShape(groups, o);
    var r := AddToVendor(groups, o);
    var code := VendorOf(o);
    assert |r| == |groups| + (if code in VendorCodes(groups) then 0 else 1);
    forall k | 0 <= k < |r|
      ensures r[k].orderList == OrdersOf(list + [o], r[k].vendorCode) && HeadedByFirst(r[k])
    {
      OrdersOfAppend(list, o, r[k].vendorCode);
      if k >= |groups| {
        assert r[k] == NewVendor(o).(orderList := [o]);
        assert OrdersOf(list, code) == [];
      } else if groups[k].vendorCode != code {
        assert r[k] == groups[k];
      } else {
        var j := FindVendor(groups, code).value;
        assert VendorCodes(groups)[j] == VendorCodes(groups)[k];
        assert r[k] == groups[k].(orderList := groups[k].orderList + [o]);
      }
    }
  }

  lemma OrdersOfAppend(list: seq<OrderSet>, o: OrderSet, code: string)
    ensures OrdersOf(list + [o], code) == OrdersOf(list, code) + (if VendorOf(o) == code then [o] else [])
  {
    AppendLast(list, o);
  }

  /** One group per distinct vendor code, in order of first appearance; each group
      holds exactly that vendor's order sets in input order, headed by the first. */
  lemma {:induction false} VendorGroupsSpec(list: seq<OrderSet>)
    ensures VendorCodes(VendorGroups(list)) == Dedup(Codes(list))
    ensures GroupsOf(VendorGroups(list), list)
  {
    if list != [] {
      var init := list[..|list| - 1];
      var o := list[|list| - 1];
      VendorGroupsSpec(init);
      SplitLast(list);
      assert VendorGroups(list) == AddToVendor(VendorGroups(init), o);
      AddToVendorStep(VendorGroups(init), init, o);
      var codes := Codes(list);
      assert codes == Codes(init) + [VendorOf(o)];
      assert codes[..|codes| - 1] == Codes(init);
      assert Dedup(codes) == Dedup(Codes(init)) + (if VendorOf(o) in Dedup(Codes(init)) then [] else [VendorOf(o)]);
    }
  }

  lemma {:induction false} OrdersOfAbsent(list: seq<OrderSet>, code: string)
    requires code !in Dedup(Codes(list))
    ensures OrdersOf(list, code) == []
  {
    DedupMembers(Codes(list));
    if list != [] {
      var init := list[..|list| - 1];
      assert Codes(list) == Codes(init) + [VendorOf(list[|list| - 1])];
      DedupMembers(Codes(init));
      assert code !in Codes(list);
      OrdersOfAbsent(init, code);
    }
  }

  function TotalOrders(groups: seq<VendorOrders>): nat {
    if groups == [] then 0 else TotalOrders(groups[..|groups| - 1]) + |groups[|groups| - 1].orderList|
  }

  lemma {:induction false} TotalOrdersUpdate(groups: seq<VendorOrders>, k: nat, v: VendorOrders)
    requires k < |groups|
    ensures TotalOrders(groups[k := v]) == TotalOrders(groups) - |groups[k].orderList| + |v.orderList|
  {
    if k < |groups| - 1 {
      TotalOrdersUpdate(groups[..|groups| - 1], k, v);
      assert groups[k := v][..|groups| - 1] == groups[..|groups| - 1][k := v];
    } else {
      assert groups[k := v][..|groups| - 1] == groups[..|groups| - 1];
    }
  }

  /** No order set is lost or duplicated: the group sizes sum to the input length. */
  lemma {:induction false} VendorGroupsTotal(list: seq<OrderSet>)
    ensures TotalOrders(VendorGroups(list)) == |list|
  {
    if list != [] {
      var init := list[..|list| - 1];
      var o := list[|list| - 1];
      var g0 := VendorGroups(init);
      VendorGroupsTotal(init);
      var g := if FindVendor(g0, VendorOf(o)).None? then g0 + [NewVendor(o)] else g0;
      if FindVendor(g0, VendorOf(o)).None? {
        assert g[..|g| - 1] == g0;
      }
      assert TotalOrders(g) == |init|;
      var k := FindVendor(g, VendorOf(o)).value;
      TotalOrdersUpdate(g, k, g[k].(orderList := g[k].orderList + [o]));
    }
  }

  const DefaultOrdersFrom := "JC Sky, Inc (Hat and Beyond)"

  /** The sender shown in the e-mail: the vendor's ORDERS_FROM, or the company name
      when it is missing or empty. */
  function OrdersFromOf(ordersFrom: Option<string>): (r: string)
    ensures Truthy(ordersFrom) ==> r == ordersFrom.value
    ensures !Truthy(ordersFrom) ==> r == DefaultOrdersFrom
  {
    if |OrEmpty(ordersFrom)| == 0 then DefaultOrdersFrom else ordersFrom.value
  }

  /** The employee shown in the e-mail: the employee name, or the sender when it is
      missing or empty. */
  function EmployeeNameOf(employeeName: Option<string>, ordersFrom: string): (r: string)
    ensures Truthy(employeeName) ==> r == employeeName.value
    ensures !Truthy(employeeName) ==> r == ordersFrom
  {
    if |OrEmpty(employeeName)| == 0 then ordersFrom else employeeName.value
  }

  const TenZeros := "0000000000"

  /** `('0000000000' + orderSeq).slice(-10)`. */
  function OrderSeqText(orderSeq: int): string {
    SliceFrom(TenZeros + IntToString(orderSeq), -10)
  }

  /** The order number always has 10 characters; a sequence number of at most 10
      digits is left-padded with zeros and reads back as itself; a longer one keeps
      only its last 10 digits. */
  lemma OrderSeqTextPadded(orderSeq: int)
    ensures |OrderSeqText(orderSeq)| == 10
    ensures var t := IntToString(orderSeq);
      |t| <= 10 ==> OrderSeqText(orderSeq) == TenZeros[|t|..] + t
    ensures var t := IntToString(orderSeq);
      |t| > 10 ==> OrderSeqText(orderSeq) == t[|t| - 10..]
    ensures orderSeq >= 0 && |IntToString(orderSeq)| <= 10 ==>
      AllDigits(OrderSeqText(orderSeq)) && DecimalValue(OrderSeqText(orderSeq)) == orderSeq
  {
    var t := IntToString(orderSeq);
    SliceFromPadded(TenZeros, t);
    if orderSeq >= 0 && |t| <= 10 {
      NatToStringValue(orderSeq);
      LeadingZeros(TenZeros[|t|..], t);
    }
  }

  /** Leading zeros do not change a decimal value. */
  lemma {:induction false} LeadingZeros(z: string, t: string)
    requires forall i :: 0 <= i < |z| ==> z[i] == '0'
    requires AllDigits(t)
    ensures AllDigits(z + t) && DecimalValue(z + t) == DecimalValue(t)
  {
    if t == [] {
      assert z + t == z;
      AllZeros(z);
    } else {
      var t' := t[..|t| - 1];
      LeadingZeros(z, t');
      assert (z + t)[..|z + t| - 1] == z + t';
    }
  }

  lemma {:induction false} AllZeros(z: string)
    requires forall i :: 0 <= i < |z| ==> z[i] == '0'
    ensures AllDigits(z) && DecimalValue(z) == 0
  {
    if z != [] {
      AllZeros(z[..|z| - 1]);
    }
  }
}
