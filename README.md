# HAB_inven core, modelled in Dafny

HAB_inven is the back end of a hat warehouse. It is a set of Express routes over
MySQL, Google Drive/Sheets, Slack and SendGrid. Inside those routes sits a layer of
sequential string and collection logic, and this project models that layer with the
current time, the database rows and the API answers passed in as values. It covers:

- **Date stamps** (`util/datetimeUtil.js`, with identical private copies: all four
  definitions in `routes/order.js:401-445`, the stamp builder `getCurrentDttm` alone
  in `routes/user.js:82-106`). The stamp `yyyymmddhhmiss`
  is built from clock fields. It is then cut into `yyyy-mm-dd`, `hh:mi:ss` and
  `yyyy-mm-dd hh:mi:ss` with JavaScript's clamping `slice`. These live in module
  `Datetime`.
- **Packing and sales** (`routes/order.js`, module `Packing`):
  - tracking-number padding;
  - the write plan and Slack notices of `update_packing_stat`;
  - the sales grouping by order date and STD_SKU, the sorted date index, and the
    sales TSV/JSON report;
  - the packing TSV.
- **Purchase-order forms** (`routes/orderForm.js`, module `OrderForm`):
  - choosing the newest monthly spreadsheet and rolling its name over to a new month;
  - the ordinal sheet title;
  - the row/column arithmetic of the order-sheet layout;
  - `place_order`, including the status-500 answer that a body without ORDER_LIST
    ends in;
  - the product/color/size grouping of `order_detail`, where one object per color
    holds both the size slots and the `manufacturingColor` entry;
  - label filtering and chunking in fours;
  - grouping order sets by vendor;
  - the e-mail header fields.
- **Clock-in files** (`routes/punch_clock.js`, module `PunchClock`):
  - the punch-time guard;
  - picking the latest clock file;
  - the next file number;
  - the `dd/dd` periods of a file name;
  - the punch row and range;
  - the outcome of `/punch_employee`, including the new-file path.
- **Users** (`routes/user.js`, module `User`):
  - the single-row lookup;
  - the `add_user` and `modify_user` guards;
  - the duplicate check;
  - the field-by-field merge of `modify_user`. The merge is a class, `Params`, whose
    fields are overwritten in place, as the handler does with `req.body`.

Module `JsText` holds the JavaScript built-ins these routes rely on, each modelled
exactly:

- `slice` and `substring`, with negative indices and clamping;
- `lastIndexOf` and `trim`;
- number-to-string conversion;
- `Number` on strings of at most two characters, and `parseInt`;
- `split` and `join`;
- `Array.prototype.sort` on strings;
- `Map` (`set` keeps insertion order);
- the own-key order of plain objects (array-index keys ascending first, then the
  other keys in insertion order).

Where the source updates state step by step, the model does too:

- the layout loop, the insert list of `place_order`, the grouping and listing loops of
  `order_detail`, the label filter and chunking, the vendor grouping;
- the packing plan, the sales grouping, the date index and the TSV/JSON loops;
- the clock-file selection loop;
- the `modify_user` merge.

Each of these is a `method` proved against a function that specifies it, and the
properties are proved about that function. Everything is verified with no
assumptions.

The write pipeline in `util/transactionMgr.js` is not part of this model. Its outcome
is an input `committed` wherever a route runs a transaction. `place_order` checks for
an empty list itself and answers 400 (`routes/orderForm.js:389-393`), and
`add_user`/`modify_user` always pass one statement.

## Model

| member | source | states |
|---|---|---|
| Datetime.Pad2Digits | util/datetimeUtil.js:8-20 | `("0"+n).slice(-2)` for 0 ≤ n ≤ 99 is two digits reading back as n, with a leading '0' iff n < 10 |
| Datetime.GetDttm | util/datetimeUtil.js:3-26 | `getDttm`: the year, then month0+1, date, hours, minutes and seconds each as `("0"+n).slice(-2)`, concatenated; `getCurrentDttm` applies it to the clock fields passed in (properties in GetDttmLayout and FormatOfStamp) |
| Datetime.GetDttmLayout | util/datetimeUtil.js:3-25 | `GetDttm` (`getDttm`/`getCurrentDttm`): for valid fields with a 4-digit year the stamp is 14 digits: year, month0+1, date, hours, minutes and seconds at positions 0-4, 4-6, 6-8, 8-10, 10-12 and 12-14 |
| Datetime.StampPieces | util/datetimeUtil.js:22 | concatenating the six padded pieces gives 14 digits whose slices give back each piece |
| Datetime.ConvertDateFormat | util/datetimeUtil.js:29-35 | `convertDateFromat`: `slice(0,4)`, `-`, `slice(4,6)`, `-`, `slice(6,8)` with JavaScript clamping (round trip in DateFormatRoundTrip) |
| Datetime.DateFormatRoundTrip | util/datetimeUtil.js:29-35 | `ConvertDateFormat` (`convertDateFromat`): for any input, the result has dashes at the clamped positions 4 and 6(+1), and deleting them gives the input's first min(len, 8) characters; an 8-char date gives 10 chars with '-' at 4 and 7; a date of at most 4 chars gives itself + "--" |
| Datetime.ConvertTimeFormat | util/datetimeUtil.js:37-43 | `convertTimeFormat`: `slice(0,2)`, `:`, `slice(2,4)`, `:`, `slice(4,6)` with clamping (round trip in TimeFormatRoundTrip) |
| Datetime.TimeFormatRoundTrip | util/datetimeUtil.js:37-43 | `ConvertTimeFormat` (`convertTimeFormat`): colons at the clamped positions 2 and 4(+1), and deleting them gives back the first min(len, 6) characters; a 6-char time gives 8 chars with ':' at 2 and 5 |
| Datetime.ConvertDatetimeFormat | util/datetimeUtil.js:45-47 | `convertDatetimeFormat`: the date format of `slice(0,8)`, a space, and the time format of `slice(-6)` (parts in DatetimeFormatParts) |
| Datetime.DatetimeFormatParts | util/datetimeUtil.js:45-47 | `ConvertDatetimeFormat` (`convertDatetimeFormat`): the result is the date of the first 8 chars, a space, and the time of the LAST 6 chars; a 14-char stamp gives the 19-char `yyyy-mm-dd hh:mi:ss` |
| Datetime.FormatOfStamp | util/datetimeUtil.js:22-47 | round trip of `GetDttm` and `ConvertDatetimeFormat`: formatting a stamp built from fields gives `yyyy-mm-dd hh:mi:ss` of the same fields |
| JsText.SliceFromTail | util/datetimeUtil.js:8 | `s.slice(-k)` is the whole string when it is at most k long, and its last k characters otherwise |
| JsText.SliceFromPadded | routes/orderForm.js:670 | `(z + t).slice(-len(z))` always has len(z) characters: t left-padded with the tail of z, or t's last len(z) characters |
| JsText.LastIndexOf | routes/orderForm.js:228 | the index is -1 or holds c, and no later index holds c |
| JsText.SplitAtLast | routes/orderForm.js:240 | the part up to and including the last separator plus the part after it give back the string |
| JsText.Trim | routes/orderForm.js:456 | `String.prototype.trim`: the result is no longer than the input, draws only its characters, and starts and ends with a non-space |
| JsText.TrimStart | routes/orderForm.js:456 | the result is a suffix of the input that is empty or starts with a non-space |
| JsText.TrimEnd | routes/orderForm.js:456 | the result is a prefix of the input that is empty or ends with a non-space |
| JsText.TrimStartCut | routes/orderForm.js:456 | every character `TrimStart` removes is white space |
| JsText.TrimEndCut | routes/orderForm.js:456 | every character `TrimEnd` removes is white space |
| JsText.TrimCut | routes/orderForm.js:456 | `Trim(s)` is a contiguous slice of s, and everything before and after that slice is white space |
| JsText.NatToStringValue | routes/orderForm.js:258 | the decimal text of n reads back as n, is one character iff n < 10, and has no leading zero |
| JsText.Number | routes/punch_clock.js:191 | `Number(s)` for at most two characters: trimmed empty is 0; `d`, `dd`, `+d`, `-d`, `d.` and `.d` read as numbers; anything else is NaN (NumberOfDigits) |
| JsText.NumberOfDigits | routes/punch_clock.js:191 | `Number` (JavaScript `Number(s)` on at most two characters) of a two-digit string is its decimal value |
| JsText.ParseInt | routes/orderForm.js:236 | `parseInt(s)` / `parseInt(s, 10)`: leading white space and one sign skipped, a `0x` prefix read as hexadecimal without a radix, the longest digit run read, NaN when there is none (ParseIntDigits) |
| JsText.ParseIntDigits | routes/orderForm.js:236 | `ParseInt` (`parseInt`): a digit string reads as its decimal value, with or without radix 10 |
| JsText.SplitJoin | routes/order.js:611-622 | splitting the tab-joined fields on tab gives the fields back when none contains a tab |
| JsText.Set | routes/order.js:586-587 | `Map.set` maps the key to the value, keeps the key order for a known key and appends a new key |
| JsText.SortStrings | routes/order.js:608 | `index.sort()` of distinct strings is ascending in code-unit order and a permutation of its input |
| JsText.InsertString | routes/order.js:608 | inserting into a sorted list keeps it sorted and adds exactly that element |
| JsText.KeysPartition | routes/orderForm.js:484 | array-index keys and other keys split a key list into two parts that together are a permutation of it |
| JsText.OwnKeysMembers | routes/orderForm.js:484 | a `for...in` over a plain object visits exactly its keys |
| JsText.OwnKeysPermutation | routes/orderForm.js:484 | the visiting order is a permutation of the insertion order |
| JsText.OwnKeysOrder | routes/orderForm.js:484 | array-index keys come first, in ascending numeric order, then the others |
| JsText.OwnKeysOthers | routes/orderForm.js:488 | the non-index keys close the order in insertion order; with no index keys the order is the insertion order |
| JsText.OwnKeysDistinct | routes/orderForm.js:484 | distinct keys are visited once each |
| JsText.DedupMembers | routes/orderForm.js:630-649 | the first-appearance list has exactly the elements of its input (and no repeats, by `Dedup`'s own contract) |
| Packing.NormalizeTrackingNo | routes/order.js:467 | the tracking number always has 22 chars: left-padded with '0', or its last 22 chars when longer; a missing one gives 22 zeros |
| Packing.ShippingStatus | routes/order.js:521-528 | "01" iff COMPLETE_YN is 'Y'; "02" iff not, and HOLD_YN is 'Y'; no status iff neither |
| Packing.PlanPackingUpdate | routes/order.js:518-546 | code 300 with nothing to run iff there is no status; otherwise the status write followed by one item write per ORDER_LIST entry in order, and the entries flagged "no item" and "tag change" in order |
| Packing.PlanLength | routes/order.js:520-546 | the write list has 1 + len(ORDER_LIST) operations: the status update first, then item i at position i+1 |
| Packing.ItemUpdatesAt | routes/order.js:531-546 | one item write per entry, the i-th for the i-th entry |
| Packing.StatusStamp | routes/order.js:522-524 | PROC_DT and PROC_TM are the first 8 and last 6 chars of the current stamp and together give it back |
| Packing.NoticesMembers | routes/order.js:538-544 | a notice is listed iff some entry carries the flag and yields it (an entry flagged both appears in both lists) |
| Packing.NoticesAppend | routes/order.js:530-546 | the notices of a concatenation are the notices of each part in order |
| Packing.SendNotices | routes/order.js:548-564 | at most one message per notice; all are sent, each naming its marketplace, iff every marketplace is known |
| Packing.RespondToPacking | routes/order.js:518-564 | the answer of `update_packing_stat`: a rejected plan's own code; 400 with no message after a rollback; otherwise the "No Item" then "Tag Change" Slack messages, 400 as soon as a marketplace is unknown, 200 when all were sent (PackingMessages) |
| Packing.PackingMessages | routes/order.js:548-564 | `RespondToPacking`: nothing is sent for a rejected request or a rolled-back transaction; after a commit with known marketplaces the answer is 200 with one message per notice |
| Packing.GroupSalesRows | routes/order.js:573-592 | the `forEach(toSalesBySKUFormat)` loop builds exactly the fold of the rows into the date → SKU table |
| Packing.AddRowGroup | routes/order.js:575-588 | one row touches only its own (date, SKU) group; every other group is unchanged |
| Packing.Absorb | routes/order.js:577-584 | the field updates of `toSalesBySKUFormat` on one item: each text field the item's own value, else the row's, else '', the total plus ORDER_QTY (0 when missing), the market column set to that quantity (AbsorbFields) |
| Packing.AbsorbFields | routes/order.js:577-584 | `Absorb` (the field updates of `toSalesBySKUFormat`): each text field keeps its first non-empty value, STD_SKU falling back to LISTING_SKU; the total grows by the row's quantity; the row's market column is set to that quantity and every other market column is kept |
| Packing.GroupSalesKeys | routes/order.js:575-580 | a (date, SKU) group exists iff some row has that date and SKU |
| Packing.GroupSalesTotal | routes/order.js:582 | TOTAL_ORDER_CNT is the sum of ORDER_QTY over the group, a missing quantity counting as 0 |
| Packing.GroupSalesMarket | routes/order.js:584 | a market column is present iff the group has a row of that market, and holds the LAST such row's quantity |
| Packing.GroupSalesEmpty | routes/order.js:594 | the table is empty iff there are no rows |
| Packing.DateIndex | routes/order.js:600-608 | the date index is the table's dates, sorted ascending, as a permutation |
| Packing.SortedDatesKnown | routes/order.js:600-612 | every date of the sorted index is a key of the table |
| Packing.AppendDateLines | routes/order.js:611-621 | the inner loop appends one line per SKU of the date, in insertion order |
| Packing.SalesTsv | routes/order.js:610-622 | the TSV is the header and the lines of every item, date by sorted date |
| Packing.SalesLineTemplate | routes/order.js:615-620 | the template string equals the tab-joined 13 fields; the market columns are markets 1,8,2,3,4,5,6,7 in that order, 0 when absent |
| Packing.SalesLineSplit | routes/order.js:615-620 | a line splits back on tab into its 13 fields when no field holds a tab |
| Packing.AppendDateItems | routes/order.js:628-629 | the JSON loop appends the items of one date in insertion order |
| Packing.SalesJsonArray | routes/order.js:625-631 | the JSON array is every item, date by sorted date |
| Packing.SalesReport | routes/order.js:594-631 | the corrected handler always answers: "no sales data" iff there are no rows, otherwise the TSV or JSON of the table |
| Packing.SalesReportAsWritten | routes/order.js:594-631 | the sales handler as written: no answer when the grouped table is empty, else the TSV file or the JSON array (EmptySalesGetNoAnswer) |
| Packing.EmptySalesGetNoAnswer | routes/order.js:594-597 | `SalesReportAsWritten`: as written, no rows leave the request without an answer |
| Packing.PackingTsv | routes/order.js:654-658 | the packing TSV is the header followed by one line per row in order |
| Packing.PackingLineTemplate | routes/order.js:656-657 | the template string equals the tab-joined 9 fields |
| Packing.PackingFulfilledDate | routes/order.js:657 | the fulfilled-date field is empty unless SHIPPING_STATUS is '01', and then it is `yyyy-mm-dd hh:mi:ss` of PROC_DT and PROC_TM |
| Packing.PackingLineSplit | routes/order.js:656-657 | a line splits back on tab into its 9 fields when no field holds a tab |
| OrderForm.NewestIndexSpec | routes/orderForm.js:227-234 | the file picked has a maximal suffix number, and every file before it has a strictly smaller one (a stable sort keeps the first of equals) |
| OrderForm.NewestFileSpec | routes/orderForm.js:227-234 | there is a file iff the list is non-empty, and it is one of maximal suffix, the first among equals |
| OrderForm.NewestFile | routes/orderForm.js:234 | no file exactly when the metadata list is empty |
| OrderForm.Rollover | routes/orderForm.js:236-248 | a new file named up to the last '_' of the title plus the month padded to 2 when the title's suffix is below `parseInt` of chars 4-6 of the stamp, the chosen file otherwise; NaN never rolls over (RolloverOfStamp, RolloverSettles) |
| OrderForm.RolloverOfStamp | routes/orderForm.js:236-248 | `Rollover`: a suffix below the current month gives a new file named up to the last '_' plus the month zero-padded to 2; otherwise the existing id |
| OrderForm.RolloverSettles | routes/orderForm.js:239-240 | the rolled-over name's suffix is the current month, so rolling over again reuses the file |
| OrderForm.StampMonth | routes/orderForm.js:236 | `parseInt` of chars 4-6 of the stamp is the current month |
| OrderForm.StampDay | routes/orderForm.js:251 | `parseInt` of chars 6-8 of the stamp is the day |
| OrderForm.StampTime | routes/orderForm.js:252 | the time part of the title is `hh:mi:ss` of the clock fields |
| OrderForm.TimeOfStamp | routes/orderForm.js:252 | for a 14-char stamp, the time is chars 8-10, 10-12, 12-14 joined by ':' |
| OrderForm.SheetTitle | routes/orderForm.js:250-258 | `${day}${suffix} ${time}` with the day read by `parseInt(..., 10)` from chars 6-8 and the time formatted from the rest (SheetTitleOfStamp) |
| OrderForm.SheetTitleOfStamp | routes/orderForm.js:250-258 | `SheetTitle`: the title is day + suffix + ' ' + time; the suffix is st/nd/rd only for days 1, 2 and 3, th otherwise (21-23 and 31 too) |
| OrderForm.DaySuffixOf | routes/orderForm.js:258 | the ordinal suffix of every day, including NaN |
| OrderForm.LayoutSheet | routes/orderForm.js:276-370 | the loop builds exactly the value ranges and sheet actions of the layout, order by order |
| OrderForm.PushBlock | routes/orderForm.js:285-312 | one order appends its header, size, color and total ranges |
| OrderForm.PushColorRows | routes/orderForm.js:302-307 | one row of quantities per color, at row curRow+1+j |
| OrderForm.LayoutCounts | routes/orderForm.js:278-369 | the layout has 4 + len(order) ranges per order and exactly 3 actions per order; the next row stays ≥ 1 |
| OrderForm.BlockGeometry | routes/orderForm.js:282-358 | every range of an order lies on one row of its block and within columns 0..4+len(sizes); the merges span rows curRow-1..curRow+len(order)-1; the border starts one row higher |
| OrderForm.BlockValuesFit | routes/orderForm.js:285-312 | when every color row has one quantity per size, each range holds as many values as it has columns |
| OrderForm.LayoutDisjoint | routes/orderForm.js:369 | the rows of an earlier order lie strictly above those of every later order |
| OrderForm.NextRowGrows | routes/orderForm.js:369 | the current row never moves back |
| OrderForm.BuildInserts | routes/orderForm.js:402-408 | one insert per order line, in order, each the line with ORDER_SEQ set and nothing else changed; the count equals the list length |
| OrderForm.PlaceOrder | routes/orderForm.js:383-429 | a missing ORDER_LIST makes `list.length` throw, so the request is answered with status 500 and nothing is inserted; otherwise the reply is the corrected reply; nothing is inserted for an empty list or a missing max sequence; otherwise every line is inserted with the max sequence; the e-mail fires iff the answer is 200 |
| OrderForm.PlaceOrderReply | routes/orderForm.js:383-429 | the corrected handler always answers; 200 iff the list is non-empty, the max sequence was found and the transaction committed; 400 otherwise |
| OrderForm.PlaceOrderReplyAsWritten | routes/orderForm.js:383-429 | the `place_order` answer as written: status 500 without ORDER_LIST, 400 for an empty list, no answer when the lookup or the transaction fails, 200 otherwise (PlaceOrderReplyAgrees, PlaceOrderFailureUnanswered) |
| OrderForm.PlaceOrderReplyAgrees | routes/orderForm.js:384-428 | `PlaceOrderReplyAsWritten`: whenever the handler as written answers a request that has an ORDER_LIST, it answers what the corrected one does |
| OrderForm.PlaceOrderFailureUnanswered | routes/orderForm.js:421-427 | `PlaceOrderReplyAsWritten`: as written, a failed lookup or a rolled-back transaction leaves the request unanswered |
| OrderForm.ColorOfClean | routes/orderForm.js:456 | the color has no '_' and neither starts nor ends with a space |
| OrderForm.GroupDetailRows | routes/orderForm.js:454-481 | the loop over the rows builds exactly the fold of the rows into the product → color object table, each color object holding the size slots and `manufacturingColor` |
| OrderForm.AddDetailRow | routes/orderForm.js:455-480 | one iteration is one step of that fold |
| OrderForm.AddToProduct | routes/orderForm.js:457-479 | one row's update of its product: the trimmed color's object gets the size slot and then `manufacturingColor`, the header fields become the row's and the total grows by ORDER_QTY; the result stays a well-formed object (AddToProductItem, AddDetailMfg, AddDetailProduct) |
| OrderForm.UpdateProduct | routes/orderForm.js:457-479 | the updates to the row's product are `AddToProduct`: the size slot and then `manufacturingColor` written into the one color object, the header fields and the total |
| OrderForm.AddDetailItem | routes/orderForm.js:459-465 | for a size code other than `manufacturingColor`, one row sets its own (product, color, size) slot and leaves every other such slot as it was |
| OrderForm.AddToProductItem | routes/orderForm.js:459-465 | the same within one product: `AddToProduct` sets the row's own size slot and keeps every other size slot |
| OrderForm.AddDetailMfg | routes/orderForm.js:464-465 | one row writes its MANUFACTURING_COLOR under `manufacturingColor` in its own color object, which then exists, and leaves every other color object unchanged |
| OrderForm.GroupDetailItem | routes/orderForm.js:454-481 | for a size code other than `manufacturingColor`, a (product, color, size) slot exists iff some row has it, and it holds the LAST such row with its color trimmed |
| OrderForm.GroupDetailMfg | routes/orderForm.js:454-481 | a color object exists iff some row has that product and color, and its `manufacturingColor` is that of the LAST such row (overwriting a size slot of the same name) |
| OrderForm.GroupDetailProduct | routes/orderForm.js:458-475 | a product exists iff some row has it; its totalQty is the sum of its rows' ORDER_QTY and its header fields are its last row's |
| OrderForm.AddDetailProduct | routes/orderForm.js:457-480 | one row adds its quantity to its own product's total and leaves other products alone |
| OrderForm.GroupDetailColor | routes/orderForm.js:458-466 | a color appears under a product iff some row of that product has that color |
| OrderForm.ListProducts | routes/orderForm.js:483-502 | the listing loop yields exactly one entry per product, in object-key order, each built by `ListProduct` |
| OrderForm.ListProduct | routes/orderForm.js:485-501 | the entry of one product carries its code, header fields and total, and the color list of `ListColors` |
| OrderForm.ListColors | routes/orderForm.js:488-494 | the inner loop yields one entry per color, in object-key order, holding the color, its `manufacturingColor` and the color object itself as `sizeVariant` |
| OrderForm.DetailListShape | routes/orderForm.js:483-502 | the listed product codes are the object's keys in own-key order, without repeats, each with its total and header, and each product's colors are distinct |
| OrderForm.DetailListProducts | routes/orderForm.js:454-502 | a product is listed iff some row has it, once, with totalQty the sum of its rows and the header of its last row |
| OrderForm.DetailListColors | routes/orderForm.js:454-502 | a color is listed under a product iff some row of that product has it |
| OrderForm.ColorEntriesMfg | routes/orderForm.js:488-494 | every listed color entry names a color of the product, carries its color object as `sizeVariant`, and its `manufacturingColor` is the text that object holds under that key |
| OrderForm.ProductColorsMfg | routes/orderForm.js:454-494 | every color entry listed for a product carries the color object built from that product's rows of that color, whose `manufacturingColor` slot holds the last such row's value, which is the entry's `manufacturingColor` too |
| OrderForm.DetailListMfg | routes/orderForm.js:454-502 | the same over the whole answer: every listed `sizeVariant` carries `manufacturingColor` with the value of the last row of its product and color |
| OrderForm.FilterLabels | routes/orderForm.js:563-570 | the kept rows are exactly the input rows with COLOR, IMAGE_PATH and SIZE all non-empty, in order; one invalid line per dropped row |
| OrderForm.PrintableRowsMembers | routes/orderForm.js:563-570 | a row is kept iff it is in the input and printable |
| OrderForm.UnvalidText | routes/orderForm.js:583 | the appended text always ends in a newline, and is just "\n" when nothing was dropped |
| OrderForm.ChunkByFour | routes/orderForm.js:571-579 | the chunks concatenate back to the kept list, all but the last have exactly 4 rows, the last has 1 to 4, and there are ⌈n/4⌉ of them |
| OrderForm.LabelsGuard | routes/orderForm.js:556-559 | a missing or empty product code, and only that, is answered 400 "Product id is null" |
| OrderForm.GroupByVendor | routes/orderForm.js:630-649 | the loop builds exactly the vendor grouping |
| OrderForm.PushToVendor | routes/orderForm.js:632-648 | one step of that loop adds the order set to its vendor's group, or opens a group at the end, and keeps `indices` pointing at each vendor's group |
| OrderForm.FindVendor | routes/orderForm.js:633 | the group found has that vendor code; no group is found only when no group has it |
| OrderForm.AddToVendorShape | routes/orderForm.js:633-648 | a known vendor's group gains the order set at its end; an unknown vendor gets a new last group holding just it |
| OrderForm.VendorGroupsSpec | routes/orderForm.js:630-649 | there is one group per distinct vendor code, in order of first appearance, and each group holds that vendor's order sets in input order, the first one supplying the header |
| OrderForm.VendorGroupsTotal | routes/orderForm.js:630-649 | no order set is lost or repeated: the group sizes sum to the input length |
| OrderForm.OrdersFromOf | routes/orderForm.js:668 | the sender is ordersFrom when it is non-empty, and the house name otherwise |
| OrderForm.EmployeeNameOf | routes/orderForm.js:669 | the employee name is used when non-empty, and the sender otherwise |
| OrderForm.OrderSeqTextPadded | routes/orderForm.js:670 | the order number always has 10 characters: left-padded with zeros or cut to its last 10; a non-negative one of at most 10 digits reads back as itself |
| PunchClock.BestBySpec | routes/punch_clock.js:180-202 | the selection starts at -1 and replaces the pick only on a strictly greater number: the pick beats -1, nothing beats the pick, and every earlier element is smaller or NaN (ties keep the earlier file, NaN never wins) |
| PunchClock.LatestFile | routes/punch_clock.js:180-202 | id and name are set together |
| PunchClock.LatestFileSpec | routes/punch_clock.js:180-202 | no file is picked iff no name starts with a number above -1, and then the dictionary is the initial one; otherwise the pick is the first file of maximal number |
| PunchClock.LatestFileStep | routes/punch_clock.js:192-196 | one iteration replaces the pick iff the current number is strictly below the file's |
| PunchClock.LatestClockFile | routes/punch_clock.js:178-205 | the loop computes exactly that selection |
| PunchClock.NextFileNumber | routes/punch_clock.js:217 | the next file number always has 2 characters |
| PunchClock.NextFileNumberDigits | routes/punch_clock.js:217 | for a two-digit prefix v, the next number is v+1 zero-padded to 2 digits, 99 wrapping to "00" |
| PunchClock.NextFileNumberNaN | routes/punch_clock.js:217 | a non-numeric prefix gives "aN" |
| PunchClock.Periods | routes/punch_clock.js:306 | every match is two digits, '/', two digits |
| PunchClock.PeriodsSkip | routes/punch_clock.js:306 | text in which no match starts adds no match |
| PunchClock.PeriodsNoSlash | routes/punch_clock.js:306 | a name without '/' has no period (`match` gives null) |
| PunchClock.PeriodsOfNewName | routes/punch_clock.js:210-219 | the name of a new file has exactly two periods, its start first and its end second |
| PunchClock.InPeriodKeepsFile | routes/punch_clock.js:303-310 | with the corrected end date, a punch inside the file's period (for a period crossing New Year: on or after the start, or on or before the end) never asks for a new file |
| PunchClock.AfterPeriodNewFile | routes/punch_clock.js:303-310 | converse: the corrected check asks for a new file exactly when the punch is after the end date in its own year and, for a period crossing New Year, before the start; such a punch is never inside the period |
| PunchClock.CrossingPeriodNewFile | routes/punch_clock.js:303-310 | for a period crossing New Year, the corrected check asks for a new file exactly when the punch is outside the period |
| PunchClock.DecemberPunchLeavesPeriod | routes/punch_clock.js:307-310 | as written, a punch on 2021-12-28 in the period 12/26-01/08 is taken to be after the period's end |
| PunchClock.JanuaryPunchAfterPeriod | routes/punch_clock.js:306-310 | a punch on 2022-01-10 is outside and past the period 12/26-01/08, and both the corrected and the as-written check start a new file |
| PunchClock.PunchRangeRow | routes/punch_clock.js:264-273 | the punch goes to F{n}:G{n} of the row n = rows + 4, and that number reads back as rows + 4 |
| PunchClock.Punch | routes/punch_clock.js:251-283 | the employee is echoed iff the last write is the punch in the row after the scanned ones and Sheets reports 2 updated cells |
| PunchClock.NewFilePunch | routes/punch_clock.js:311-318 | with the punch sequenced after the init, an echo means the punch landed |
| PunchClock.NewFilePunchAsWritten | routes/punch_clock.js:311-318 | as written, the answer is an echo or nothing |
| PunchClock.PunchInLatest | routes/punch_clock.js:301-324 | in the corrected handler, an echo means the punch, formatted `yyyy-mm-dd hh:mi:ss`, landed |
| PunchClock.PunchEmployee | routes/punch_clock.js:285-327 | `GET /punch_employee`: a bad stamp refused, an unknown employee refused, otherwise the punch in the latest file or in a new file when the punch is past its period (BadPunchTimeRefused, UnknownEmployeeRefused, EchoMeansPunched) |
| PunchClock.BadPunchTimeRefused | routes/punch_clock.js:289-292 | `PunchEmployee`: a stamp that is not exactly 14 characters (missing counts as empty), and only such a stamp, is refused before anything is written |
| PunchClock.UnknownEmployeeRefused | routes/punch_clock.js:294-299 | `PunchEmployee`: lookup code 100 with a good stamp, and only that, is refused with nothing written |
| PunchClock.EchoMeansPunched | routes/punch_clock.js:285-327 | `PunchEmployee`: when the corrected handler echoes the employee, the punch was written and confirmed |
| PunchClock.NewFileInitialisedWithStart | routes/punch_clock.js:229-249 | a new file is first initialised at Overview!M2 with its period start |
| PunchClock.NewFileEchoNeedsBoth | routes/punch_clock.js:311-318 | corrected: an echo iff the name has a period, the init updated 1 cell and the punch 2; a punch is only written after a good init |
| PunchClock.FailedPunchAnsweredAsWritten | routes/punch_clock.js:313-316 | as written, a punch that fails after a good init is still echoed; the corrected handler does not answer |
| User.RowsWithIdMembers | routes/user.js:9-22 | the lookup returns exactly the rows with that id |
| User.GetUser | routes/user.js:113-131 | `GET /user/:employeeId`: code 100 on ENOTFOUND, no answer on another error, the one row's selected columns when exactly one row has the id, code 100 otherwise (GetUserSpec, GetUserId) |
| User.GetUserSpec | routes/user.js:113-131 | `GetUser`: exactly one row gives the record; any other count gives code 100; a connection error gives code 100, other errors no answer |
| User.GetUserId | routes/user.js:123-124 | a returned record carries the id asked for |
| User.IdMissingSpec | routes/user.js:137 | the id is missing iff it is absent or empty |
| User.AddUser | routes/user.js:133-164 | `POST /add_user`: 400 for a missing id, the name check, the duplicate lookup answered 100, else one insert in a transaction (AddUserIdChecked, AddUserRefusesDuplicate, AddUserInsertsOnce, AddThenGet) |
| User.AddUserIdChecked | routes/user.js:137-141 | `AddUser`: a missing or empty id, and only that, is answered 400 with nothing written |
| User.NamelessNotInserted | routes/user.js:143-146 | corrected: with no name the handler stops after the 400 answer |
| User.AddUserRefusesDuplicate | routes/user.js:151-154 | an id already stored is answered 100 with nothing written |
| User.AddUserInsertsOnce | routes/user.js:156-162 | `AddUser`: when anything is written, the id and name were present, the id unknown, and exactly one insert ran with the current stamp |
| User.AddThenGet | routes/user.js:133-164 | after adding an unknown id, looking it up gives the new row |
| User.Merge | routes/user.js:189-192 | the four assignments that keep each request field when it is truthy and take the stored one otherwise (MergeFields, MergeIdempotent) |
| User.MergeFields | routes/user.js:189-192 | `Merge`: each of FIRST/MIDDLE/LAST/DEPARTMENT is the request value when truthy and the stored one otherwise; the id is kept |
| User.MergeIdempotent | routes/user.js:189-192 | merging twice with the same stored record changes nothing more |
| User.Params.constructor | routes/user.js:168 | the parameter object holds the request body |
| User.Params.MergeStored | routes/user.js:189-192 | the four assignments leave the object equal to the merge of its old contents with the stored record |
| User.ModifyUser | routes/user.js:166-202 | `POST /modify_user`: 400 for a missing id, the name check, code 100 for an unknown id, else one update of the merged row in a transaction (UnknownIdRefused, ModifyUserUpdatesOnce, StoredMiddleNameKept) |
| User.UnknownIdRefused | routes/user.js:184-187 | `ModifyUser`, corrected: an id without exactly one stored row is answered 100 with nothing written |
| User.ModifyUserUpdatesOnce | routes/user.js:194-200 | `ModifyUser`: when anything is written, it is one update of the merged row with the current stamp, for an id stored exactly once |
| User.StoredMiddleNameKept | routes/user.js:189-194 | corrected: a request without a middle name keeps the stored one |
| User.NamelessStillInserted | routes/user.js:143-146 | as written, a request with an id and no name is answered 400 and the user is still inserted |
| User.FirstNameOnlyFlagged | routes/user.js:143 | as written, a request naming only FIRST_NAME is warned about as nameless |
| User.FirstNameOnlyAdded | routes/user.js:143 | corrected: a request naming only FIRST_NAME is added normally |
| User.UnknownIdUpdatedAsWritten | routes/user.js:184 | as written, the numeric code 100 never matches '100', so an unknown id is "updated" |
| User.MiddleNameErasedAsWritten | routes/user.js:11-18 | as written, the lookup does not select MIDDLE_NAME, so a request without one clears the stored middle name |

## Left out

- `util/transactionMgr.js` is not part of this model. Its outcome hangs on the timing of the `mysql` callbacks. Each route takes whether the transaction committed as an input.
- SQL text and the queries run against MySQL. Database results are input sequences: sales rows, detail rows, label rows, the max order sequence. The user routes are the exception: the user table is an input sequence, and the model computes the lookup's `WHERE EMPLOYEE_ID = ?` itself (see the `User.RowsWithId` line below).
- Google OAuth, the Drive and Sheets calls, SendGrid, Slack, puppeteer/ejs/pdf-lib and `fs` writes are foreign I/O. Their answers are parameters: file metadata, updated-cell counts, scanned row counts, the new file id, the marketplace names.
- The `fetch` calls to localhost are handled in three ways. The employee lookup of `/punch_employee` (`routes/punch_clock.js:294`) is foreign I/O, and its code is a parameter. The order form's call of `send_email` (`routes/orderForm.js:416`) is a flag that `PlaceOrder` sets; what that call and its own fetch of `order_detail` (`routes/orderForm.js:520`) return is left out. The lookup that `add_user` and `modify_user` fetch (`routes/user.js:149`, `182`) is modelled as a direct call of `GetUser` on the same table.
- User.RowsWithId: the id is matched by exact string equality. MySQL's collation is not modelled; under its default case-insensitive, trailing-space-padding comparison, the row "ABC" would be returned for the id "abc" and then told apart by the `===` of `routes/user.js:151`. The local fetch is taken to deliver the id unchanged: an id holding '/', '#' or a malformed '%' escape, which never reaches `/:employeeId` (the request falls to the 404 handler, and `res.json()` rejects with no handler, so nothing is written or sent), is not modelled.
- The system clock is not read. The current stamp and the clock fields are parameters.
- `createNewEmployeeClockFile` computes the new period with JavaScript `Date` arithmetic (`routes/punch_clock.js:211-216`). That computation depends on the time zone and reads `getFullYear` without calling it. The four period fields are therefore parameters, and the model checks what is done with them.
- `Date` parsing of out-of-range month or day strings is not modelled. The period check uses calendar triples, and a period that does not parse counts as invalid, so every comparison with it is false.
- The failure of `getFileMetadata` inside the selection loop (`routes/punch_clock.js:197-199`) is not modelled. It rejects the promise while the loop goes on, and the model assumes every metadata call answers.
- Errors of the Drive copy and patch calls are not modelled. They end in a logged error and no answer.
- The size-variant database call of `order_detail` (`routes/orderForm.js:498`) is not modelled. The size entries are listed in key order.
- The e-mail body, PDF rendering and sending of `sendEmail` are not modelled, and neither is the overwrite of `vendorEmail` (`routes/orderForm.js:672`). The header fields and the vendor grouping are modelled.
- The GET `/` routes that answer code '900' are not modelled, and neither is the login route.
- `app.js` and `util/configReader.js` are not modelled: they are server wiring and configuration loading. Of `app.js` the model keeps only the outcome of an exception thrown in a route: its error handler sets status 500 and calls `res.render('error')`, which throws in turn because no view engine is set, so Express's final handler answers with status 500 and no body from the route (the `ErrorPage(500)` reply of `place_order`).
- Text fields of a request are strings or absent; MARKET_ID and the quantities (UNIT_QTY, ORDER_QTY) are taken to be integers, and EMPLOYEE_ID a string. Other JSON types, and JavaScript's coercion of them in `||` and `.length`, are not modelled.
- Strings are sequences of characters. UTF-16 surrogate pairs are not distinguished.
- Number-to-string conversion is modelled for integers only. Exponent notation for very large numbers is not modelled.
- Object prototype keys are not modelled. Plain objects have only their own keys.
- Spreadsheet ranges are modelled as integer rows and columns. The A1 notation strings are not.
- JsText.Number: models `Number` only on strings of at most two characters, the only use in the core. Longer numeric strings, hexadecimal and exponents are not modelled.
- OrderForm.NewestIndexSpec: `Array.prototype.sort` with a comparator that returns NaN for a non-numeric suffix is implementation-defined. The model ranks NaN below every number and keeps the first of equals, as a stable sort does on consistent keys.
- OrderForm.BlockGeometry: states the row and column bounds and the merge geometry, not the exact values written into each cell.
- Packing.SendNotices: a marketplace lookup that throws stops the sending at that notice. The model returns the messages sent so far and does not model the later logging.

## Findings

| source | as written | input that shows it | evidently intended | confidence | as-written member | corrected member |
|---|---|---|---|---|---|---|
| routes/order.js:594-597 | `reject(...)` is called in a callback where no `reject` is in scope, so the handler throws and never answers | a sales request whose query returns no rows | answer that there is no sales data | not executed | Packing.EmptySalesGetNoAnswer | Packing.SalesReport |
| routes/orderForm.js:421, 427 | the error replies send `errMsg`, which is not defined, so the `res.json` throws and the request stays unanswered | `place_order` whose max-sequence lookup returns no row, or whose transaction rolls back | answer code 400 | not executed | OrderForm.PlaceOrderFailureUnanswered | OrderForm.PlaceOrderReply |
| routes/punch_clock.js:308 | when the end is before the start, `periodTo` is set to the value it already has, so a period crossing New Year ends in January of the punch's own year | a punch on 2021-12-28 in the file for 12/26 - 01/08 | for a punch on or after the start, the end falls in the next year, so the punch stays in the current file; a punch before the start keeps the end in its own year | not executed | PunchClock.DecemberPunchLeavesPeriod | PunchClock.InPeriodKeepsFile |
| routes/punch_clock.js:313-314 | `.then(punchClock(...)(auth))` passes a promise, not a function: the punch runs regardless of the init, and its failure is ignored | a new file whose init succeeds and whose punch updates 0 cells | the punch runs after the init, and only a confirmed punch is echoed | not executed | PunchClock.FailedPunchAnsweredAsWritten | PunchClock.NewFileEchoNeedsBoth |
| routes/user.js:143-146 | the nameless branch answers 400 but does not return, so the insert still runs | `add_user` with an id and no name | stop after the 400 answer | not executed | User.NamelessStillInserted | User.NamelessNotInserted |
| routes/user.js:143 | the name check reads `FIST_NAME`, so a request with only FIRST_NAME is called nameless | `add_user` with FIRST_NAME "Ann" and no other name | check FIRST_NAME | not executed | User.FirstNameOnlyFlagged | User.FirstNameOnlyAdded |
| routes/user.js:184 | the lookup answers the number 100 (`routes/user.js:119`), but the check compares with the string '100' | `modify_user` with an unknown id | refuse an unknown id with code 100 | not executed | User.UnknownIdUpdatedAsWritten | User.UnknownIdRefused |
| routes/user.js:11-18 | the lookup does not select MIDDLE_NAME, so the merge at line 190 falls back to undefined | `modify_user` without MIDDLE_NAME for a user stored with one | keep the stored middle name | not executed | User.MiddleNameErasedAsWritten | User.StoredMiddleNameKept |
