/**
 * The employee clock-in route: the check on the punch stamp, the choice of
 * the clock-in file with the largest two-digit number in the year folder, the
 * number and the `mm/dd - mm/dd` period of the file that follows it, the row
 * and range a punch is written to, and the checks on the number of cells
 * Sheets reports as updated.
 *
 * Drive and Sheets are not modelled: what they answer (the folder listing,
 * the rows already in the scan column, the updated-cell counts, the id of a
 * copied file) is an input, and the writes the route asks for are part of
 * the result. A `Date` built from `yyyy/mm/dd` is modelled as that calendar
 * triple; the date arithmetic that computes a new file's period is an input
 * too.
 */
module PunchClock {
  import opened JsText
  import opened Datetime

  // ---------------------------------------------------------------------
  // The punch stamp
  // ---------------------------------------------------------------------

  /** `(punchDttm || '').length !== 14`: a missing stamp counts as empty. */
  predicate BadPunchTime(punchDttm: Option<string>) {
    |OrEmpty(punchDttm)| != 14
  }

  // ---------------------------------------------------------------------
  // The latest clock-in file
  // ---------------------------------------------------------------------

  /** The id and name of a file in the year folder, as its metadata reports them. */
  datatype FileMeta = FileMeta(id: string, name: string)

  /** `fileDic`: the number, id and name of the best file seen so far. */
  datatype FileDic = FileDic(fileNum: JsNumber, fileId: Option<string>, fileName: Option<string>)

  /** The starting value: number -1, no id, no name. */
  const NoFile := FileDic(FromInt(-1), None, None)

  /** `Number(meta.data.name.substr(0, 2))`. */
  function FileNumber(m: FileMeta): JsNumber {
    Number(m.name[..Min(|m.name|, 2)])
  }

  /** The dictionary after a file has been picked. */
  function Pick(m: FileMeta): FileDic {
    FileDic(FileNumber(m), Some(m.id), Some(m.name))
  }

  /** The number a candidate has to beat when `k` is the pick so far (-1 when there is
      none). */
  function BestNumber<T>(s: seq<T>, num: T -> JsNumber, k: int): JsNumber
    requires -1 <= k < |s|
  {
    if k < 0 then FromInt(-1) else num(s[k])
  }

  /** The index the selection loop ends with, or -1: an element replaces the current
      pick only when its number is strictly greater. */
  function BestBy<T>(s: seq<T>, num: T -> JsNumber): (k: int)
    ensures -1 <= k < |s|
  {
    if s == [] then -1
    else
      var k := BestBy(s[..|s| - 1], num);
      if Less(BestNumber(s, num, k), num(s[|s| - 1])) then |s| - 1 else k
  }

  /** `a >= b` on two numbers; false when either is NaN. */
  predicate AtLeast(a: JsNumber, b: JsNumber) {
    a.Tenths? && b.Tenths? && a.t >= b.t
  }

  /** The pick's number is above -1 (so never NaN), no number is above the pick's
      (above -1 when nothing was picked), and every element before the pick has a
      smaller number or none at all: among equal numbers the first one wins. */
  lemma {:induction false} BestBySpec<T>(s: seq<T>, num: T -> JsNumber)
    ensures var k := BestBy(s, num);
      (k >= 0 ==> Less(FromInt(-1), num(s[k]))) &&
      (forall j :: 0 <= j < |s| ==> !Less(BestNumber(s, num, k), num(s[j]))) &&
      (forall j :: 0 <= j < k ==> !AtLeast(num(s[j]), num(s[k])))
  {
    if s != [] {
      var init := s[..|s| - 1];
      BestBySpec(init, num);
      var k := BestBy(init, num);
      assert forall j :: 0 <= j < |init| ==> init[j] == s[j];
      assert BestNumber(s, num, k) == BestNumber(init, num, k);
    }
  }

  /** What `getLatestEmployeeClockFileId` resolves with. */
  function LatestFile(metas: seq<FileMeta>): (r: FileDic)
    ensures r.fileId.Some? <==> r.fileName.Some?
  {
    var k := BestBy(metas, FileNumber);
    if k < 0 then NoFile else Pick(metas[k])
  }

  /** The search ends with nothing exactly when no file's number is above -1 (an
      empty folder, or only NaN and negative prefixes); otherwise it ends with a file
      whose number is above -1, no file's number is above it, and every file before
      it has a smaller number or none. */
  lemma LatestFileSpec(metas: seq<FileMeta>)
    ensures LatestFile(metas).fileId.None? <==>
      forall j :: 0 <= j < |metas| ==> !Less(FromInt(-1), FileNumber(metas[j]))
    ensures LatestFile(metas).fileId.None? ==> LatestFile(metas) == NoFile
    ensures var k := BestBy(metas, FileNumber);
      LatestFile(metas).fileId.Some? ==>
        0 <= k < |metas| && LatestFile(metas) == Pick(metas[k]) &&
        Less(FromInt(-1), FileNumber(metas[k])) &&
        (forall j :: 0 <= j < |metas| ==> !Less(FileNumber(metas[k]), FileNumber(metas[j]))) &&
        (forall j :: 0 <= j < k ==> !AtLeast(FileNumber(metas[j]), FileNumber(metas[k])))
  {
    BestBySpec(metas, FileNumber);
  }

  /** One more file: it becomes the pick exactly when its number beats the current
      one. */
  lemma LatestFileStep(metas: seq<FileMeta>, i: nat)
    requires i < |metas|
    ensures LatestFile(metas[..i + 1]) ==
      if Less(LatestFile(metas[..i]).fileNum, FileNumber(metas[i])) then Pick(metas[i])
      else LatestFile(metas[..i])
  {
    PrefixStep(metas, i);
    var k := BestBy(metas[..i], FileNumber);
    assert BestNumber(metas[..i + 1], FileNumber, k) == LatestFile(metas[..i]).fileNum;
  }

  /** The loop of `getLatestEmployeeClockFileId` over the folder's files. */
  method LatestClockFile(metas: seq<FileMeta>) returns (fileDic: FileDic)
    ensures fileDic == LatestFile(metas)
  {
    fileDic := NoFile;
    for i := 0 to |metas|
      invariant fileDic == LatestFile(metas[..i])
    {
      LatestFileStep(metas, i);
      var fileNum := FileNumber(metas[i]);
      if Less(fileDic.fileNum, fileNum) {
        fileDic := FileDic(fileNum, Some(metas[i].id), Some(metas[i].name));
      }
    }
    assert metas[..|metas|] == metas;
  }

  // ---------------------------------------------------------------------
  // The next file's number and name
  // ---------------------------------------------------------------------

  /** `Number(fileName.substring(0, 2).trim())`. */
  function NamePrefix(fileName: string): JsNumber {
    var p := Substring(fileName, 0, 2);
    assert |p| <= 2;
    Number(Trim(p))
  }

  /** `("0" + (Number(fileName.substring(0, 2).trim()) + 1)).slice(-2)`. */
  function NextFileNumber(fileName: string): (r: string)
    ensures |r| == 2
  {
    var t := NumberToString(Add(NamePrefix(fileName), FromInt(1)));
    SliceFromTail("0" + t, 2);
    SliceFrom("0" + t, -2)
  }

  /** A file whose name starts with two digits is followed by the next number modulo
      100, again as two digits: "07" gives "08" and "99" gives "00". */
  lemma NextFileNumberDigits(fileName: string)
    requires |fileName| >= 2 && AllDigits(fileName[..2])
    ensures var v := DecimalValue(fileName[..2]);
      NextFileNumber(fileName) == Pad2((v + 1) % 100) &&
      AllDigits(NextFileNumber(fileName)) && DecimalValue(NextFileNumber(fileName)) == (v + 1) % 100
  {
    var v := DecimalValue(fileName[..2]);
    NamePrefixDigits(fileName);
    NumberToStringInt(v + 1);
    var r := NextFileNumber(fileName);
    var m := if v == 99 then 0 else v + 1;
    NextModHundred(v);
    assert r == SliceFrom("0" + IntToString(v + 1), -2);
    if v == 99 {
      Pad2Wraps();
    } else {
      assert Pad2(v + 1) == SliceFrom("0" + IntToString(v + 1), -2);
    }
    assert r == Pad2(m);
    Pad2Digits(m);
  }

  lemma NamePrefixDigits(fileName: string)
    requires |fileName| >= 2 && AllDigits(fileName[..2])
    ensures NamePrefix(fileName) == FromInt(DecimalValue(fileName[..2])) && DecimalValue(fileName[..2]) < 100
    ensures Add(NamePrefix(fileName), FromInt(1)) == FromInt(DecimalValue(fileName[..2]) + 1)
  {
    var p := fileName[..2];
    assert Substring(fileName, 0, 2) == p;
    assert !IsJsSpace(p[0]) && !IsJsSpace(p[1]);
    assert TrimStart(p) == p;
    assert Trim(p) == p;
    NumberOfDigits(p);
    DecimalValueBelow(p);
    assert Pow10(2) == 100;
  }

  lemma NextModHundred(v: int)
    requires 0 <= v < 100
    ensures (v + 1) % 100 == if v == 99 then 0 else v + 1
  {
  }

  /** 99 + 1 keeps only its last two digits. */
  lemma Pad2Wraps()
    ensures SliceFrom("0" + IntToString(100), -2) == Pad2(0)
  {
    assert NatToString(100) == NatToString(10) + ['0'];
    assert IntToString(100) == "100";
    SliceFromTail("0100", 2);
    SliceFromTail("00", 2);
  }

  /** A name that does not start with a number is followed by "aN", the tail of
      "0NaN". */
  lemma NextFileNumberNaN(fileName: string)
    requires NamePrefix(fileName) == NaN
    ensures NextFileNumber(fileName) == "aN"
  {
    assert Add(NamePrefix(fileName), FromInt(1)) == NaN;
    assert NextFileNumber(fileName) == SliceFrom("0" + "NaN", -2);
    SliceNaN();
  }

  lemma SliceNaN()
    ensures SliceFrom("0" + "NaN", -2) == "aN"
  {
    var t := "0" + "NaN";
    SliceFromTail(t, 2);
    assert t[2..] == "aN";
  }

  /** The name `createNewEmployeeClockFile` gives the copy of the template. */
  function NewFileName(newNum: string, fromMM: string, fromDD: string, tillMM: string, tillDD: string): string {
    newNum + " [" + fromMM + "/" + fromDD + " - " + tillMM + "/" + tillDD + "] Employee Clock In Table"
  }

  // ---------------------------------------------------------------------
  // The periods in a file name
  // ---------------------------------------------------------------------

  /** Two digits, a '/', two digits, starting at index i. */
  predicate PeriodAt(s: string, i: nat) {
    i + 5 <= |s| && IsDigit(s[i]) && IsDigit(s[i + 1]) && s[i + 2] == '/' && IsDigit(s[i + 3]) && IsDigit(s[i + 4])
  }

  predicate IsPeriod(p: string) {
    |p| == 5 && PeriodAt(p, 0)
  }

  /** `s.match(/[0-9]{2}\/[0-9]{2}/g)`, with `null` as the empty list: the scan takes
      a match whole and goes on after it, otherwise it moves one character on. */
  function Periods(s: string): (r: seq<string>)
    ensures forall k :: 0 <= k < |r| ==> IsPeriod(r[k])
    decreases |s|
  {
    if |s| < 5 then []
    else if PeriodAt(s, 0) then [s[..5]] + Periods(s[5..])
    else Periods(s[1..])
  }

  lemma PeriodsFront(p: string, rest: string)
    requires IsPeriod(p)
    ensures Periods(p + rest) == [p] + Periods(rest)
  {
    var s := p + rest;
    assert PeriodAt(s, 0);
    assert s[..5] == p && s[5..] == rest;
  }

  lemma PeriodAtShift(s: string, i: nat)
    requires |s| >= 1
    ensures PeriodAt(s[1..], i) <==> PeriodAt(s, i + 1)
  {
  }

  /** Characters where no match starts are passed over. */
  lemma {:induction false} PeriodsSkip(x: string, rest: string)
    requires forall i :: 0 <= i < |x| ==> !PeriodAt(x + rest, i)
    ensures Periods(x + rest) == Periods(rest)
    decreases |x|
  {
    if x != [] {
      var s := x + rest;
      assert !PeriodAt(s, 0);
      if |s| >= 5 {
        assert Periods(s) == Periods(s[1..]);
        assert s[1..] == x[1..] + rest;
        forall i | 0 <= i < |x[1..]| ensures !PeriodAt(x[1..] + rest, i) {
          PeriodAtShift(s, i);
          assert !PeriodAt(s, i + 1);
        }
        PeriodsSkip(x[1..], rest);
      } else {
        assert |rest| < 5;
      }
    } else {
      assert x + rest == rest;
    }
  }

  /** A text without '/' holds no period. */
  lemma {:induction false} PeriodsNoSlash(s: string)
    requires '/' !in s
    ensures Periods(s) == []
    decreases |s|
  {
    if |s| >= 5 {
      assert s[2] in s;
      assert forall c :: c in s[1..] ==> c in s;
      PeriodsNoSlash(s[1..]);
    }
  }

  /** The number and the " [" before the first period hold no match. */
  lemma PeriodsAfterNumber(newNum: string, rest: string)
    requires |newNum| == 2
    ensures Periods(newNum + " [" + rest) == Periods(rest)
  {
    var x := newNum + " [";
    var s := x + rest;
    assert s == newNum + " [" + rest;
    assert s[2] == ' ' && s[3] == '[';
    PeriodsSkip(x, rest);
  }

  /** Neither does the " - " between the two periods. */
  lemma PeriodsAfterDash(rest: string)
    ensures Periods(" - " + rest) == Periods(rest)
  {
    var s := " - " + rest;
    assert !IsDigit(s[0]) && !IsDigit(s[1]) && !IsDigit(s[2]);
    PeriodsSkip(" - ", rest);
  }

  /** The name of a new file holds exactly its two periods, start first: index 0 is
      `mm/dd` of the start and index 1 that of the end, whatever the file number. */
  lemma PeriodsOfNewName(newNum: string, fromMM: string, fromDD: string, tillMM: string, tillDD: string)
    requires |newNum| == 2
    requires |fromMM| == 2 && |fromDD| == 2 && |tillMM| == 2 && |tillDD| == 2
    requires AllDigits(fromMM) && AllDigits(fromDD) && AllDigits(tillMM) && AllDigits(tillDD)
    ensures Periods(NewFileName(newNum, fromMM, fromDD, tillMM, tillDD)) ==
      [fromMM + "/" + fromDD, tillMM + "/" + tillDD]
  {
    var p := fromMM + "/" + fromDD;
    var q := tillMM + "/" + tillDD;
    var tail := "] Employee Clock In Table";
    assert IsPeriod(p) && IsPeriod(q);
    var r3 := q + tail;
    var r2 := " - " + r3;
    var r1 := p + r2;
    assert NewFileName(newNum, fromMM, fromDD, tillMM, tillDD) == newNum + " [" + r1;
    PeriodsNoSlash(tail);
    PeriodsFront(q, tail);
    PeriodsAfterDash(r3);
    PeriodsFront(p, r2);
    PeriodsAfterNumber(newNum, r1);
  }

  /** `period[i]`: `undefined` past the end. */
  function Nth(period: seq<string>, i: nat): Option<string> {
    if i < |period| then Some(period[i]) else None
  }

  // ---------------------------------------------------------------------
  // Dates of the period check
  // ---------------------------------------------------------------------

  /** A local calendar date. */
  datatype CalDate = CalDate(year: int, month: int, day: int)

  /** `a < b` on two `Date`s; an invalid date (`None`) compares false with anything. */
  predicate Earlier(a: Option<CalDate>, b: Option<CalDate>) {
    a.Some? && b.Some? &&
    (a.value.year < b.value.year ||
     (a.value.year == b.value.year &&
      (a.value.month < b.value.month || (a.value.month == b.value.month && a.value.day < b.value.day))))
  }

  /** `new Date(`${yyyy}/${mm}/${dd}`)` from the first eight characters of the stamp. */
  function PunchDate(punchDttm: string): Option<CalDate>
    requires |punchDttm| == 14
  {
    if AllDigits(punchDttm[..8]) then
      Some(CalDate(DecimalValue(punchDttm[..4]), DecimalValue(punchDttm[4..6]), DecimalValue(punchDttm[6..8])))
    else None
  }

  /** `new Date(`${year}/${period}`)`: invalid when the year is NaN or the period
      `undefined`. */
  function PeriodDate(year: Option<int>, period: Option<string>): Option<CalDate> {
    if year.Some? && period.Some? && IsPeriod(period.value) then
      var p := period.value;
      Some(CalDate(year.value, DecimalValue(p[..2]), DecimalValue(p[3..5])))
    else None
  }

  /** `punchDate.getFullYear()`. */
  function YearOf(d: Option<CalDate>): Option<int> {
    if d.Some? then Some(d.value.year) else None
  }

  function NextYear(year: Option<int>): Option<int> {
    if year.Some? then Some(year.value + 1) else None
  }

  /** The end of the period, corrected: when the end falls before the start in the
      punch's year, the period crosses into the next year. A punch on or after the
      start lies in the December part, and the period ends in the following year; a
      punch before the start lies in the January part, and the period ends in the
      punch's own year. */
  function PeriodEnd(punchDate: Option<CalDate>, period: seq<string>): Option<CalDate> {
    var year := YearOf(punchDate);
    var start := PeriodDate(year, Nth(period, 0));
    var periodTo := PeriodDate(year, Nth(period, 1));
    if Earlier(periodTo, start) && !Earlier(punchDate, start) then PeriodDate(NextYear(year), Nth(period, 1))
    else periodTo
  }

  /** As written, the branch for an end before the start assigns the value the end
      already has, so a period that crosses the new year ends in January of the punch's
      own year. */
  function PeriodEndAsWritten(year: Option<int>, period: seq<string>): Option<CalDate> {
    var periodTo := PeriodDate(year, Nth(period, 1));
    if Earlier(periodTo, PeriodDate(year, Nth(period, 0))) then PeriodDate(year, Nth(period, 1))
    else periodTo
  }

  /** A punch dated inside a file's period: on or after its start and on or before its
      end, the end lying in the following year when the period crosses the new year. */
  predicate InPeriod(d: CalDate, period: seq<string>) {
    var start := PeriodDate(Some(d.year), Nth(period, 0));
    var end := PeriodDate(Some(d.year), Nth(period, 1));
    start.Some? && end.Some? &&
    if Earlier(end, start) then !Earlier(Some(d), start) || !Earlier(end, Some(d))
    else !Earlier(Some(d), start) && !Earlier(end, Some(d))
  }

  /** A punch dated past a file's period: after the end date in its own year and,
      when the period crosses the new year, before the start (a punch on or after the
      start lies in the December part of the period). */
  predicate AfterPeriod(d: CalDate, period: seq<string>) {
    var start := PeriodDate(Some(d.year), Nth(period, 0));
    var end := PeriodDate(Some(d.year), Nth(period, 1));
    Earlier(end, Some(d)) && (Earlier(end, start) ==> Earlier(Some(d), start))
  }

  /** A punch inside the latest file's period never asks for a new file. */
  lemma InPeriodKeepsFile(d: CalDate, period: seq<string>)
    requires InPeriod(d, period)
    ensures !Earlier(PeriodEnd(Some(d), period), Some(d))
  {
  }

  /** The corrected check asks for a new file exactly when the punch is past the
      period; such a punch is never inside it. */
  lemma AfterPeriodNewFile(d: CalDate, period: seq<string>)
    ensures Earlier(PeriodEnd(Some(d), period), Some(d)) <==> AfterPeriod(d, period)
    ensures AfterPeriod(d, period) ==> !InPeriod(d, period)
  {
  }

  /** For a period that crosses the new year, every punch outside it is past it, so
      the corrected check asks for a new file exactly when the punch is outside. */
  lemma CrossingPeriodNewFile(d: CalDate, period: seq<string>)
    requires Earlier(PeriodDate(Some(d.year), Nth(period, 1)), PeriodDate(Some(d.year), Nth(period, 0)))
    ensures Earlier(PeriodEnd(Some(d), period), Some(d)) <==> !InPeriod(d, period)
  {
    AfterPeriodNewFile(d, period);
  }

  /** With the period "12/26 - 01/08", a punch on 2021-12-28 lies inside it, yet the
      handler as written finds the period over and starts a new file. */
  lemma DecemberPunchLeavesPeriod()
    ensures InPeriod(CalDate(2021, 12, 28), ["12/26", "01/08"])
    ensures Earlier(PeriodEndAsWritten(Some(2021), ["12/26", "01/08"]), Some(CalDate(2021, 12, 28)))
  {
    NewYearPeriod(2021);
  }

  /** With the same period, a punch on 2022-01-10 is past it: the corrected check, like
      the one as written, starts a new file. */
  lemma JanuaryPunchAfterPeriod()
    ensures !InPeriod(CalDate(2022, 1, 10), ["12/26", "01/08"])
    ensures AfterPeriod(CalDate(2022, 1, 10), ["12/26", "01/08"])
    ensures Earlier(PeriodEnd(Some(CalDate(2022, 1, 10)), ["12/26", "01/08"]), Some(CalDate(2022, 1, 10)))
    ensures Earlier(PeriodEndAsWritten(Some(2022), ["12/26", "01/08"]), Some(CalDate(2022, 1, 10)))
  {
    NewYearPeriod(2022);
    AfterPeriodNewFile(CalDate(2022, 1, 10), ["12/26", "01/08"]);
  }

  /** The dates of the period "12/26 - 01/08" in a given year. */
  lemma NewYearPeriod(year: int)
    ensures PeriodDate(Some(year), Nth(["12/26", "01/08"], 0)) == Some(CalDate(year, 12, 26))
    ensures PeriodDate(Some(year), Nth(["12/26", "01/08"], 1)) == Some(CalDate(year, 1, 8))
  {
    assert DecimalValue("12") == 12 by {
      assert "12"[..1] == "1";
    }
    assert DecimalValue("26") == 26 by {
      assert "26"[..1] == "2";
    }
    assert DecimalValue("01") == 1 by {
      assert "01"[..1] == "0";
    }
    assert DecimalValue("08") == 8 by {
      assert "08"[..1] == "0";
    }
    assert "12/26"[..2] == "12" && "12/26"[3..5] == "26";
    assert "01/08"[..2] == "01" && "01/08"[3..5] == "08";
  }

  // ---------------------------------------------------------------------
  // Sheet writes
  // ---------------------------------------------------------------------

  /** One `values.update` request: the file, the A1 range, the rows of values. */
  datatype Write = Write(fileId: string, range: string, values: seq<seq<string>>)

  /** The row of the next punch: the rows already in `F4:F`, below the three header
      rows. */
  function PunchRow(rows: nat): nat {
    rows + 4
  }

  /** `Daily Scan Data WH!F${lastRow}:G${lastRow}`. */
  function PunchRange(row: nat): string {
    "Daily Scan Data WH!F" + IntToString(row) + ":G" + IntToString(row)
  }

  /** The range names one row, `F` and `G` of the row after the scanned ones; its
      number reads back as that row. */
  lemma PunchRangeRow(rows: nat)
    ensures var n := IntToString(PunchRow(rows));
      PunchRange(PunchRow(rows)) == "Daily Scan Data WH!F" + n + ":G" + n &&
      AllDigits(n) && DecimalValue(n) == rows + 4 && PunchRow(rows) >= 4
  {
    NatToStringValue(rows + 4);
  }

  /** The write of `initClockInFile`: the period start in `Overview!M2`. */
  function InitWrite(fileId: string, periodFrom: string): Write {
    Write(fileId, "Overview!M2:M2", [[periodFrom]])
  }

  /** The write of `punchClock`: employee id and punch time side by side. */
  function PunchWrite(fileId: string, rows: nat, employeeId: string, datetime: string): Write {
    Write(fileId, PunchRange(PunchRow(rows)), [[employeeId, datetime]])
  }

  /** `punchClock` resolves only when two cells were updated, `initClockInFile` only
      when one was. */
  predicate PunchOk(updatedCells: int) { updatedCells == 2 }

  predicate InitOk(updatedCells: int) { updatedCells == 1 }

  // ---------------------------------------------------------------------
  // The /punch_employee handler
  // ---------------------------------------------------------------------

  /** What the outside world answers during one request. `lookupCode` is the `code`
      of the user lookup's JSON (absent for an employee record); `scanRows` is the
      number of rows Sheets returns for `F4:F` (absent when the answer has no
      `values`); the four period fields are what the date arithmetic of
      `createNewEmployeeClockFile` produces. */
  datatype PunchWorld = PunchWorld(
    lookupCode: Option<int>,
    folder: seq<FileMeta>,
    newFileId: string,
    fromMM: string, fromDD: string, tillMM: string, tillDD: string,
    initCells: int,
    scanRows: Option<nat>,
    punchCells: int)

  datatype PunchReply =
    | BadTimeReply       // `{code: 100, status: "DateTime('yyyymmddhhmiss') format is incorrect."}`
    | UnknownEmployee    // `{code: 100, status: "Employee id doesn't exist in the system."}`
    | EmployeeEcho       // `res.send(json)`: the employee record the lookup returned
    | NoReply            // the error is only logged

  /** The reply and the writes asked of Sheets. */
  datatype Handling = Handling(reply: PunchReply, writes: seq<Write>)

  /** The last write asked for is a punch of `usercode` at `datetime`, in the row after
      the scanned ones, and Sheets reported it as two cells. */
  predicate Punched(h: Handling, usercode: string, datetime: string, w: PunchWorld) {
    w.scanRows.Some? && PunchOk(w.punchCells) && h.writes != [] &&
    h.writes[|h.writes| - 1].range == PunchRange(w.scanRows.value + 4) &&
    h.writes[|h.writes| - 1].values == [[usercode, datetime]]
  }

  /** The replies that can follow an accepted stamp and employee. */
  predicate Settled(h: Handling) {
    h.reply == EmployeeEcho || h.reply == NoReply
  }

  /** `punchClock(fileId, usercode, punchDateTime)` on its own. */
  function Punch(fileId: string, usercode: string, datetime: string, w: PunchWorld): (r: Handling)
    ensures Settled(r)
    ensures r.reply == EmployeeEcho <==> Punched(r, usercode, datetime, w)
  {
    if w.scanRows.None? then Handling(NoReply, [])
    else
      Handling(if PunchOk(w.punchCells) then EmployeeEcho else NoReply,
               [PunchWrite(fileId, w.scanRows.value, usercode, datetime)])
  }

  /** The new-file branch: the copy is named after the latest file, initialised with
      the start of its own period, and then punched. */
  function NewFilePunch(fileName: string, usercode: string, datetime: string, w: PunchWorld): (r: Handling)
    ensures Settled(r)
    ensures r.reply == EmployeeEcho ==> Punched(r, usercode, datetime, w)
  {
    var title := NewFileName(NextFileNumber(fileName), w.fromMM, w.fromDD, w.tillMM, w.tillDD);
    var starts := Periods(title);
    if starts == [] then Handling(NoReply, [])
    else
      var init := InitWrite(w.newFileId, starts[0]);
      if !InitOk(w.initCells) then Handling(NoReply, [init])
      else
        var h := Punch(w.newFileId, usercode, datetime, w);
        Handling(h.reply, [init] + h.writes)
  }

  /** As written, `punchClock(...)(auth)` is called while the arguments of `.then` are
      evaluated and its promise is passed where a callback belongs, so `.then` ignores
      it: the punch starts whatever the init does, its outcome is dropped, and the
      employee record is sent as soon as the init succeeds. */
  function NewFilePunchAsWritten(fileName: string, usercode: string, datetime: string, w: PunchWorld): (r: Handling)
    ensures Settled(r)
  {
    var title := NewFileName(NextFileNumber(fileName), w.fromMM, w.fromDD, w.tillMM, w.tillDD);
    var starts := Periods(title);
    if starts == [] then Handling(NoReply, [])
    else
      var init := InitWrite(w.newFileId, starts[0]);
      var h := Punch(w.newFileId, usercode, datetime, w);
      Handling(if InitOk(w.initCells) then EmployeeEcho else NoReply, [init] + h.writes)
  }

  /** The part of the handler after the stamp and the employee are accepted. */
  function PunchInLatest(punchDttm: string, usercode: string, w: PunchWorld, asWritten: bool): (r: Handling)
    requires |punchDttm| == 14
    ensures Settled(r)
    ensures !asWritten && r.reply == EmployeeEcho ==> Punched(r, usercode, ConvertDatetimeFormat(punchDttm), w)
  {
    var datetime := ConvertDatetimeFormat(punchDttm);
    var latest := LatestFile(w.folder);
    if latest.fileName.None? then Handling(NoReply, [])  // `null.match` throws
    else
      var fileName := latest.fileName.value;
      var period := Periods(fileName);
      if period == [] then Handling(NoReply, [])          // `null[1]` throws
      else
        var punchDate := PunchDate(punchDttm);
        var curYear := YearOf(punchDate);
        var periodTo := if asWritten then PeriodEndAsWritten(curYear, period) else PeriodEnd(punchDate, period);
        if Earlier(periodTo, punchDate) then
          if asWritten then NewFilePunchAsWritten(fileName, usercode, datetime, w)
          else NewFilePunch(fileName, usercode, datetime, w)
        else Punch(latest.fileId.value, usercode, datetime, w)
  }

  /** `GET /punch_employee`. */
  function PunchEmployee(usercode: string, punchDttm: Option<string>, w: PunchWorld, asWritten: bool): Handling {
    if BadPunchTime(punchDttm) then Handling(BadTimeReply, [])
    else if w.lookupCode == Some(100) then Handling(UnknownEmployee, [])
    else PunchInLatest(punchDttm.value, usercode, w, asWritten)
  }

  /** A stamp that is not 14 characters long is refused before anything else, and
      nothing else is refused that way. */
  lemma BadPunchTimeRefused(usercode: string, punchDttm: Option<string>, w: PunchWorld, asWritten: bool)
    ensures PunchEmployee(usercode, punchDttm, w, asWritten).reply == BadTimeReply <==> BadPunchTime(punchDttm)
    ensures BadPunchTime(punchDttm) ==> PunchEmployee(usercode, punchDttm, w, asWritten).writes == []
  {
  }

  /** An unknown employee is refused without any write, exactly when the stamp passed
      and the lookup answered code 100. */
  lemma UnknownEmployeeRefused(usercode: string, punchDttm: Option<string>, w: PunchWorld, asWritten: bool)
    ensures PunchEmployee(usercode, punchDttm, w, asWritten).reply == UnknownEmployee <==>
      !BadPunchTime(punchDttm) && w.lookupCode == Some(100)
    ensures w.lookupCode == Some(100) ==> PunchEmployee(usercode, punchDttm, w, asWritten).writes == []
  {
  }

  /** The employee record is sent back only after a punch was written that Sheets
      reports as two cells: the employee id and the formatted stamp, side by side in
      the first row after the scanned ones. */
  lemma EchoMeansPunched(usercode: string, punchDttm: Option<string>, w: PunchWorld)
    requires PunchEmployee(usercode, punchDttm, w, false).reply == EmployeeEcho
    ensures punchDttm.Some? &&
      Punched(PunchEmployee(usercode, punchDttm, w, false), usercode, ConvertDatetimeFormat(punchDttm.value), w)
  {
  }

  /** A new file is initialised with the start of its own period, given two-digit
      period fields. */
  lemma NewFileInitialisedWithStart(fileName: string, usercode: string, datetime: string, w: PunchWorld)
    requires |w.fromMM| == 2 && |w.fromDD| == 2 && |w.tillMM| == 2 && |w.tillDD| == 2
    requires AllDigits(w.fromMM) && AllDigits(w.fromDD) && AllDigits(w.tillMM) && AllDigits(w.tillDD)
    ensures var h := NewFilePunch(fileName, usercode, datetime, w);
      h.writes != [] && h.writes[0] == InitWrite(w.newFileId, w.fromMM + "/" + w.fromDD)
  {
    PeriodsOfNewName(NextFileNumber(fileName), w.fromMM, w.fromDD, w.tillMM, w.tillDD);
  }

  /** As written, after the init of a new file succeeds the employee record is sent
      even when the punch fails. */
  lemma FailedPunchAnsweredAsWritten(fileName: string, usercode: string, datetime: string, w: PunchWorld)
    requires |w.fromMM| == 2 && |w.fromDD| == 2 && |w.tillMM| == 2 && |w.tillDD| == 2
    requires AllDigits(w.fromMM) && AllDigits(w.fromDD) && AllDigits(w.tillMM) && AllDigits(w.tillDD)
    requires InitOk(w.initCells) && !PunchOk(w.punchCells)
    ensures NewFilePunchAsWritten(fileName, usercode, datetime, w).reply == EmployeeEcho
    ensures NewFilePunch(fileName, usercode, datetime, w).reply == NoReply
  {
    PeriodsOfNewName(NextFileNumber(fileName), w.fromMM, w.fromDD, w.tillMM, w.tillDD);
  }

  /** In the new-file branch the record is sent exactly when the init and the punch
      both succeed, and the punch is asked for only after the init succeeded. */
  lemma NewFileEchoNeedsBoth(fileName: string, usercode: string, datetime: string, w: PunchWorld)
    ensures var h := NewFilePunch(fileName, usercode, datetime, w);
      (h.reply == EmployeeEcho <==>
        Periods(NewFileName(NextFileNumber(fileName), w.fromMM, w.fromDD, w.tillMM, w.tillDD)) != [] &&
        InitOk(w.initCells) && w.scanRows.Some? && PunchOk(w.punchCells)) &&
      (|h.writes| > 1 ==> InitOk(w.initCells))
  {
  }
}
