/** The SAX content handler of `parser/xml.py`: a state threaded through
    the element events of a pdfminer XML dump. Header and footer boxes are
    recognised by position, validated and suppressed; every other text box
    is recorded with its position and text, and each page's boxes are put in
    reading order when the page ends. */
module XmlHandler {
  import opened Wrappers
  import opened Text
  import opened Rows
  import opened LineSort

  // ---- positions -----------------------------------------------------------

  /** `int(float(...))` of a coordinate: truncation toward zero. */
  function Truncate(r: real): (n: int)
    ensures r >= 0.0 ==> n as real <= r < n as real + 1.0
    ensures r < 0.0 ==> n as real - 1.0 < r <= n as real
  {
    if r >= 0.0 then r.Floor else -((-r).Floor)
  }

  /** The first two fields of a text box's `bbox` attribute, as numbers. */
  datatype Bbox = Bbox(x: real, y: real)

  /** The location header and footer slots are matched against. */
  function Locate(b: Bbox): (int, int) {
    (Truncate(b.x), Truncate(b.y))
  }

  /** `is_approximately`: the same row, and within five pixels across. */
  predicate IsApproximately(loc: (int, int), target: (int, int)) {
    loc.1 == target.1 && target.0 - 5 <= loc.0 <= target.0 + 5
  }

  function Abs(n: int): nat {
    if n < 0 then -n else n
  }

  /** The fuzzy test is a distance bound: exact in y, at most 5 in x. */
  lemma IsApproximatelyDistance(loc: (int, int), target: (int, int))
    ensures IsApproximately(loc, target) <==> loc.1 == target.1 && Abs(loc.0 - target.0) <= 5
  {
  }

  /** Where a header or footer box sits: near a point, or anywhere along a
      stretch of one row (the day labels). */
  datatype Slot = Near(x: int, y: int) | Band(row: int, lo: int, hi: int)

  predicate Fits(s: Slot, loc: (int, int)) {
    match s
    case Near(x, y) => IsApproximately(loc, (x, y))
    case Band(row, lo, hi) => loc.1 == row && lo <= loc.0 <= hi
  }

  /** The flags of `in_header_footer_parts`, one per header or footer box. */
  datatype Part =
    | TimesheetLabel
    | TimesheetValue
    | LocationLabel
    | LocationValue
    | DepartmentLabel
    | DepartmentValue
    | EmployeeTypeLabel
    | EmployeeTypeValue
    | LocationDefaultLabel
    | LocationDefaultValue
    | FunctionLabel
    | FunctionValue
    | ExemptLabel
    | ExemptValue
    | StatusLabel
    | StatusValue
    | PostStatusLabel
    | PostStatusValue
    | ValidationLabel
    | ValidationValue
    | DatetimeLabel
    | DatetimeValue
    | TotalTimesheetLabel
    | TotalTimesheetValue
    | StandardHoursLabel
    | StandardHoursValue
    | TotalBillableLabel
    | TotalBillableValue
    | PercentBillabilityLabel
    | PercentBillabilityValue
    | IdLabel
    | TimeCodeLabel
    | ProjectLabel
    | TimetypeLabel
    | DayLabel
    | TotalLabel
    | DocNoLabel
    | DocNoValue
    | FooterDatetimeValue
    | FooterTimezoneValue
    | FooterPagenumValue
    | FooterPagecountValue

  /** What `handle_header_footer_end` does with the text of a box:
      `debug_assert` it against a literal or a tuple, keep it as the date
      range, or drop it. */
  datatype Check = Validate(tag: string, allowed: Allowed) | StoreDaterange | Discard

  /** The page-1 chain of `handle_header_footer_start`, in order. */
  const FirstPageSlots: seq<(Slot, Part)> := [
    (Near(335, 524), TimesheetLabel),
    (Near(335, 504), TimesheetValue),
    (Near(20, 481), LocationLabel),
    (Near(93, 481), LocationValue),
    (Near(20, 466), DepartmentLabel),
    (Near(93, 466), DepartmentValue),
    (Near(20, 452), EmployeeTypeLabel),
    (Near(93, 452), EmployeeTypeValue),
    (Near(20, 437), LocationDefaultLabel),
    (Near(93, 437), LocationDefaultValue),
    (Near(230, 481), FunctionLabel),
    (Near(304, 481), FunctionValue),
    (Near(230, 466), ExemptLabel),
    (Near(304, 466), ExemptValue),
    (Near(230, 452), StatusLabel),
    (Near(304, 452), StatusValue),
    (Near(230, 437), DocNoLabel),
    (Near(304, 437), DocNoValue),
    (Near(440, 481), PostStatusLabel),
    (Near(513, 481), PostStatusValue),
    (Near(440, 466), ValidationLabel),
    (Near(513, 466), ValidationValue),
    (Near(440, 452), DatetimeLabel),
    (Near(513, 452), DatetimeValue),
    (Near(651, 481), TotalTimesheetLabel),
    (Near(751, 481), TotalTimesheetValue),
    (Near(651, 466), StandardHoursLabel),
    (Near(751, 466), StandardHoursValue),
    (Near(651, 452), TotalBillableLabel),
    (Near(751, 452), TotalBillableValue),
    (Near(651, 437), PercentBillabilityLabel),
    (Near(751, 437), PercentBillabilityValue),
    (Near(20, 399), IdLabel),
    (Near(40, 399), TimeCodeLabel),
    (Near(120, 399), ProjectLabel),
    (Near(200, 399), TimetypeLabel),
    (Band(399, 370, 730), DayLabel),
    (Near(754, 399), TotalLabel),
    (Near(20, 27), FooterDatetimeValue),
    (Near(120, 27), FooterTimezoneValue),
    (Near(688, 27), FooterPagenumValue),
    (Near(732, 27), FooterPagecountValue)]

  /** The chain for every other page. */
  const LaterPageSlots: seq<(Slot, Part)> := [
    (Near(333, 524), TimesheetLabel),
    (Near(333, 504), TimesheetValue),
    (Near(20, 479), IdLabel),
    (Near(40, 479), TimeCodeLabel),
    (Near(120, 479), ProjectLabel),
    (Near(200, 479), TimetypeLabel),
    (Band(479, 370, 730), DayLabel),
    (Near(754, 479), TotalLabel),
    (Near(20, 27), FooterDatetimeValue),
    (Near(120, 27), FooterTimezoneValue),
    (Near(688, 27), FooterPagenumValue),
    (Near(732, 27), FooterPagecountValue)]

  /** The `i`-th box of the chain of `handle_header_footer_end`. */
  function PartAt(i: nat): Part {
    match i
    case 0 => DocNoLabel
    case 1 => DocNoValue
    case 2 => TimesheetLabel
    case 3 => TimesheetValue
    case 4 => LocationLabel
    case 5 => LocationValue
    case 6 => DepartmentLabel
    case 7 => DepartmentValue
    case 8 => EmployeeTypeLabel
    case 9 => EmployeeTypeValue
    case 10 => LocationDefaultLabel
    case 11 => LocationDefaultValue
    case 12 => FunctionLabel
    case 13 => FunctionValue
    case 14 => ExemptLabel
    case 15 => ExemptValue
    case 16 => StatusLabel
    case 17 => StatusValue
    case 18 => PostStatusLabel
    case 19 => PostStatusValue
    case 20 => ValidationLabel
    case 21 => ValidationValue
    case 22 => DatetimeLabel
    case 23 => DatetimeValue
    case 24 => TotalTimesheetLabel
    case 25 => TotalTimesheetValue
    case 26 => StandardHoursLabel
    case 27 => StandardHoursValue
    case 28 => TotalBillableLabel
    case 29 => TotalBillableValue
    case 30 => PercentBillabilityLabel
    case 31 => PercentBillabilityValue
    case 32 => IdLabel
    case 33 => TimeCodeLabel
    case 34 => ProjectLabel
    case 35 => TimetypeLabel
    case 36 => DayLabel
    case 37 => TotalLabel
    case 38 => FooterDatetimeValue
    case 39 => FooterTimezoneValue
    case 40 => FooterPagenumValue
    case _ => FooterPagecountValue
  }

  /** The chain of `handle_header_footer_end`, in order. */
  const EndOrder: seq<Part> := seq(42, (i: nat) => PartAt(i))

  /** What the end chain does with the text of each box. */
  function CheckOf(p: Part): Check {
    match p
    case DocNoLabel => Validate("doc no label", Exactly("Doc.No."))
    case DocNoValue => Validate("doc no", Exactly("1"))
    case TimesheetLabel => Validate("timesheet label", Exactly("Timesheet\n[109015] Ricottone, Dominic"))
    case TimesheetValue => StoreDaterange
    case LocationLabel => Validate("location label", Exactly("Location:"))
    case LocationValue => Validate("location", Exactly("[E01] Fors Marsh Group"))
    case DepartmentLabel => Validate("department label", Exactly("Department:"))
    case DepartmentValue => Validate("department", OneOf(["[3200] Advanced Analytics", "[3230] Data Management"]))
    case EmployeeTypeLabel => Validate("employee type label", Exactly("Employee Type:"))
    case EmployeeTypeValue => Validate("employee type", Exactly("[1] Annual Salary"))
    case LocationDefaultLabel => Validate("location default label", Exactly("Location (Default"))
    case LocationDefaultValue => Validate("location default", Exactly("[LOCAL] Location"))
    case FunctionLabel => Validate("function label", Exactly("Function:"))
    case FunctionValue => Validate("function", Exactly("[1] Full Time"))
    case ExemptLabel => Validate("exempt label", Exactly("Exempt:"))
    case ExemptValue => Validate("exempt", Exactly("Yes"))
    case StatusLabel => Validate("status label", Exactly("Status:"))
    case StatusValue => Validate("status", OneOf(["Approved", "Closed", "On Hold [Draft]"]))
    case PostStatusLabel => Validate("post status label", Exactly("Post Status:"))
    case PostStatusValue => Validate("post status", OneOf(["Posted", "Not posted"]))
    case ValidationLabel => Validate("validation label", Exactly("Validation:"))
    case ValidationValue => Validate("validation", OneOf(["Passed", "Warnings"]))
    case DatetimeLabel => Validate("datetime label", Exactly("Date/Time:"))
    case DatetimeValue => Discard
    case TotalTimesheetLabel => Validate("total timesheet label", Exactly("Total Timesheet:"))
    case TotalTimesheetValue => Discard
    case StandardHoursLabel => Validate("standard hours label", Exactly("Standard Hours:"))
    case StandardHoursValue => Discard
    case TotalBillableLabel => Validate("total billable label", Exactly("Total Billable:"))
    case TotalBillableValue => Discard
    case PercentBillabilityLabel => Validate("percent billability label", Exactly("Percent Billability:"))
    case PercentBillabilityValue => Discard
    case IdLabel => Validate("id label", Exactly("ID"))
    case TimeCodeLabel => Validate("time code label", Exactly("Time Code"))
    case ProjectLabel => Validate("project label", Exactly("Project"))
    case TimetypeLabel => Validate("timetype label", Exactly("TimeType"))
    case DayLabel => Validate("day label", OneOf(["Mon", "Tue Wed", "Tue", "Wed", "Thu", "Fri", "Sat", "Sun"]))
    case TotalLabel => Discard
    case FooterDatetimeValue => Discard
    case FooterTimezoneValue => Discard
    case FooterPagenumValue => Discard
    case FooterPagecountValue => Discard
  }

  /** Every flag has its place in the end chain. */
  lemma EndOrderComplete(p: Part)
    ensures p in EndOrder
  {
    match p
    case DocNoLabel => assert EndOrder[0] == DocNoLabel;
    case DocNoValue => assert EndOrder[1] == DocNoValue;
    case TimesheetLabel => assert EndOrder[2] == TimesheetLabel;
    case TimesheetValue => assert EndOrder[3] == TimesheetValue;
    case LocationLabel => assert EndOrder[4] == LocationLabel;
    case LocationValue => assert EndOrder[5] == LocationValue;
    case DepartmentLabel => assert EndOrder[6] == DepartmentLabel;
    case DepartmentValue => assert EndOrder[7] == DepartmentValue;
    case EmployeeTypeLabel => assert EndOrder[8] == EmployeeTypeLabel;
    case EmployeeTypeValue => assert EndOrder[9] == EmployeeTypeValue;
    case LocationDefaultLabel => assert EndOrder[10] == LocationDefaultLabel;
    case LocationDefaultValue => assert EndOrder[11] == LocationDefaultValue;
    case FunctionLabel => assert EndOrder[12] == FunctionLabel;
    case FunctionValue => assert EndOrder[13] == FunctionValue;
    case ExemptLabel => assert EndOrder[14] == ExemptLabel;
    case ExemptValue => assert EndOrder[15] == ExemptValue;
    case StatusLabel => assert EndOrder[16] == StatusLabel;
    case StatusValue => assert EndOrder[17] == StatusValue;
    case PostStatusLabel => assert EndOrder[18] == PostStatusLabel;
    case PostStatusValue => assert EndOrder[19] == PostStatusValue;
    case ValidationLabel => assert EndOrder[20] == ValidationLabel;
    case ValidationValue => assert EndOrder[21] == ValidationValue;
    case DatetimeLabel => assert EndOrder[22] == DatetimeLabel;
    case DatetimeValue => assert EndOrder[23] == DatetimeValue;
    case TotalTimesheetLabel => assert EndOrder[24] == TotalTimesheetLabel;
    case TotalTimesheetValue => assert EndOrder[25] == TotalTimesheetValue;
    case StandardHoursLabel => assert EndOrder[26] == StandardHoursLabel;
    case StandardHoursValue => assert EndOrder[27] == StandardHoursValue;
    case TotalBillableLabel => assert EndOrder[28] == TotalBillableLabel;
    case TotalBillableValue => assert EndOrder[29] == TotalBillableValue;
    case PercentBillabilityLabel => assert EndOrder[30] == PercentBillabilityLabel;
    case PercentBillabilityValue => assert EndOrder[31] == PercentBillabilityValue;
    case IdLabel => assert EndOrder[32] == IdLabel;
    case TimeCodeLabel => assert EndOrder[33] == TimeCodeLabel;
    case ProjectLabel => assert EndOrder[34] == ProjectLabel;
    case TimetypeLabel => assert EndOrder[35] == TimetypeLabel;
    case DayLabel => assert EndOrder[36] == DayLabel;
    case TotalLabel => assert EndOrder[37] == TotalLabel;
    case FooterDatetimeValue => assert EndOrder[38] == FooterDatetimeValue;
    case FooterTimezoneValue => assert EndOrder[39] == FooterTimezoneValue;
    case FooterPagenumValue => assert EndOrder[40] == FooterPagenumValue;
    case FooterPagecountValue => assert EndOrder[41] == FooterPagecountValue;
  }

  /** Every page-1 slot but the day band lies off the band's stretch of
      row 399, and no other slot raises the day-label flag. */
  lemma FirstPageDayBand()
    ensures DayBandAt(FirstPageSlots, 36, 399)
  {
    var s := FirstPageSlots;
    assert |s| == 42 && s[36] == (Band(399, 370, 730), DayLabel);
    forall j | 0 <= j < 18 ensures s[j].0.Near? && (s[j].0.y != 399 || s[j].0.x + 5 < 370) && s[j].1 != DayLabel {
    }
    forall j | 18 <= j < 36 ensures s[j].0.Near? && (s[j].0.y != 399 || s[j].0.x + 5 < 370) && s[j].1 != DayLabel {
    }
    forall j | 36 < j < |s| ensures s[j].1 != DayLabel {
    }
  }

  /** The same for the other pages, on row 479. */
  lemma LaterPageDayBand()
    ensures DayBandAt(LaterPageSlots, 6, 479)
  {
  }

  // ---- handle_header_footer_start ------------------------------------------

  /** The position of the first slot in the chain that the location fits. */
  function FirstFit(slots: seq<(Slot, Part)>, loc: (int, int)): (r: Option<nat>)
    ensures r.Some? ==> r.value < |slots| && Fits(slots[r.value].0, loc)
    ensures r.Some? ==> forall j :: 0 <= j < r.value ==> !Fits(slots[j].0, loc)
    ensures r.None? <==> forall j :: 0 <= j < |slots| ==> !Fits(slots[j].0, loc)
  {
    if |slots| == 0 then None
    else if Fits(slots[0].0, loc) then Some(0)
    else
      assert forall j :: 0 <= j < |slots| - 1 ==> slots[1..][j] == slots[j + 1];
      match FirstFit(slots[1..], loc)
      case None => None
      case Some(i) => Some(i + 1)
  }

  /** The chain `handle_header_footer_start` walks: the page-1 chain when
      `pagenum == "1"`, the other one otherwise. */
  function SlotsFor(pagenum: Option<string>): seq<(Slot, Part)> {
    if pagenum == Some("1") then FirstPageSlots else LaterPageSlots
  }

  /** The chain walk: the first slot the location fits sets its flag and
      the box counts as handled; a box that fits no slot changes nothing. */
  function HandleStartWith(slots: seq<(Slot, Part)>, parts: set<Part>, loc: (int, int)): (r: (set<Part>, bool))
    ensures r.1 <==> exists j :: 0 <= j < |slots| && Fits(slots[j].0, loc)
    ensures !r.1 ==> r.0 == parts
    ensures r.1 ==> exists i ::
      && 0 <= i < |slots| && Fits(slots[i].0, loc)
      && (forall j :: 0 <= j < i ==> !Fits(slots[j].0, loc))
      && r.0 == parts + {slots[i].1}
  {
    match FirstFit(slots, loc)
    case None => (parts, false)
    case Some(i) => (parts + {slots[i].1}, true)
  }

  /** `handle_header_footer_start`. */
  function HandleStart(parts: set<Part>, pagenum: Option<string>, loc: (int, int)): (set<Part>, bool) {
    HandleStartWith(SlotsFor(pagenum), parts, loc)
  }

  /** A chain whose slot `b` is the day band on `row`, with every slot
      before it a point off the band's stretch and no other slot raising
      the day-label flag. */
  predicate DayBandAt(slots: seq<(Slot, Part)>, b: nat, row: int) {
    && b < |slots| && slots[b] == (Band(row, 370, 730), DayLabel)
    && (forall j :: 0 <= j < b ==>
         && slots[j].0.Near?
         && (slots[j].0.y != row || slots[j].0.x + 5 < 370))
    && (forall j :: 0 <= j < |slots| && slots[j].1 == DayLabel ==> j == b)
  }

  /** In such a chain the day-label flag is raised exactly for boxes on the
      band's stretch of its row. */
  lemma DayLabelWith(slots: seq<(Slot, Part)>, b: nat, row: int, parts: set<Part>, loc: (int, int))
    requires DayBandAt(slots, b, row) && DayLabel !in parts
    ensures DayLabel in HandleStartWith(slots, parts, loc).0 <==> loc.1 == row && 370 <= loc.0 <= 730
  {
    if loc.1 == row && 370 <= loc.0 <= 730 {
      assert Fits(slots[b].0, loc);
    }
  }

  /** On page 1 the day-label flag is raised exactly for boxes on row 399
      between x = 370 and x = 730, both included. */
  lemma FirstPageDayLabel(parts: set<Part>, loc: (int, int))
    requires DayLabel !in parts
    ensures DayLabel in HandleStart(parts, Some("1"), loc).0 <==> loc.1 == 399 && 370 <= loc.0 <= 730
  {
    FirstPageDayBand();
    DayLabelWith(FirstPageSlots, 36, 399, parts, loc);
  }

  /** On every other page the same holds on row 479. */
  lemma LaterPageDayLabel(parts: set<Part>, pagenum: Option<string>, loc: (int, int))
    requires DayLabel !in parts && pagenum != Some("1")
    ensures DayLabel in HandleStart(parts, pagenum, loc).0 <==> loc.1 == 479 && 370 <= loc.0 <= 730
  {
    LaterPageDayBand();
    DayLabelWith(LaterPageSlots, 6, 479, parts, loc);
  }

  // ---- the handler's state -------------------------------------------------

  /** What `debug_assert` prints: the label (`tag`), what was required, what was found. */
  datatype Report = Report(tag: string, allowed: Allowed, value: string)

  /** `TimeSheetHandler`'s attributes. The dict of flags is the set of those
      that are true; printed reports are collected in order. */
  datatype Handler = Handler(
    textBuffer: string,
    lineBuffer: seq<Line>,
    pageBuffer: seq<seq<Line>>,
    pagenum: Option<string>,
    daterange: Option<string>,
    inTextbox: bool,
    inText: bool,
    inFigure: bool,
    inHoursDistribution: bool,
    parts: set<Part>,
    reports: seq<Report>)

  /** The state `__init__` sets up. */
  const Initial: Handler :=
    Handler("", [], [], None, None, false, false, false, false, {}, [])

  /** `debug_assert`: a report exactly when the value is not the literal,
      or not among the tuple's options. */
  function DebugAssert(tag: string, allowed: Allowed, value: string): (r: seq<Report>)
    ensures |r| <= 1
    ensures r == [] <==> Admits(allowed, value)
    ensures r != [] ==> r[0].value == value
  {
    if Admits(allowed, value) then [] else [Report(tag, allowed, value)]
  }

  /** `pop_buffer`: the buffered text, stripped, with the buffer emptied. */
  function PopBuffer(h: Handler): (r: (Handler, string))
    ensures r.0.textBuffer == "" && r.1 == Strip(h.textBuffer)
  {
    (h.(textBuffer := ""), Strip(h.textBuffer))
  }

  /** A second pop right after a first yields nothing. */
  lemma PopBufferTwice(h: Handler)
    ensures PopBuffer(PopBuffer(h).0).1 == ""
    ensures PopBuffer(PopBuffer(h).0).0 == PopBuffer(h).0
  {
    StripUnchanged("");
  }

  // ---- handle_header_footer_end --------------------------------------------

  /** The position of the first flag in the chain that is set. */
  function FirstSet(order: seq<Part>, parts: set<Part>): (r: Option<nat>)
    ensures r.Some? ==> r.value < |order| && order[r.value] in parts
    ensures r.Some? ==> forall j :: 0 <= j < r.value ==> order[j] !in parts
    ensures r.None? <==> forall j :: 0 <= j < |order| ==> order[j] !in parts
  {
    if |order| == 0 then None
    else if order[0] in parts then Some(0)
    else
      assert forall j :: 0 <= j < |order| - 1 ==> order[1..][j] == order[j + 1];
      match FirstSet(order[1..], parts)
      case None => None
      case Some(i) => Some(i + 1)
  }

  /** What the chain does with the popped text of the box. */
  function Consume(h: Handler, check: Check, value: string): (r: Handler)
    ensures r.parts == h.parts && r.textBuffer == h.textBuffer && r.lineBuffer == h.lineBuffer
    ensures check.StoreDaterange? ==> r.daterange == Some(value)
    ensures !check.StoreDaterange? ==> r.daterange == h.daterange
    ensures check.Validate? ==> r.reports == h.reports + DebugAssert(check.tag, check.allowed, value)
    ensures !check.Validate? ==> r.reports == h.reports
  {
    match check
    case Validate(tag, allowed) => h.(reports := h.reports + DebugAssert(tag, allowed, value))
    case StoreDaterange => h.(daterange := Some(value))
    case Discard => h
  }

  /** The chain walk at the end of a box: the first set flag in the chain
      is cleared, the buffer is consumed and the box counts as handled; with
      no flag of the chain set nothing changes. */
  function HandleEndWith(order: seq<Part>, checks: Part -> Check, h: Handler): (r: (Handler, bool))
    ensures r.1 <==> exists j :: 0 <= j < |order| && order[j] in h.parts
    ensures !r.1 ==> r.0 == h
    ensures r.1 ==> exists i ::
      && 0 <= i < |order| && order[i] in h.parts
      && (forall j :: 0 <= j < i ==> order[j] !in h.parts)
      && r.0 == Consume(PopBuffer(h).0, checks(order[i]), Strip(h.textBuffer)).(parts := h.parts - {order[i]})
  {
    match FirstSet(order, h.parts)
    case None => (h, false)
    case Some(i) =>
      var (popped, value) := PopBuffer(h);
      var consumed := Consume(popped, checks(order[i]), value);
      (consumed.(parts := h.parts - {order[i]}), true)
  }

  /** `handle_header_footer_end`. */
  function HandleEnd(h: Handler): (Handler, bool) {
    HandleEndWith(EndOrder, CheckOf, h)
  }

  /** The end chain handles a box exactly when some flag is set, and clears
      exactly one flag when it does. */
  lemma HandleEndClearsOne(h: Handler)
    ensures HandleEnd(h).1 <==> h.parts != {}
    ensures !HandleEnd(h).1 ==> HandleEnd(h).0 == h
    ensures HandleEnd(h).1 ==> exists p :: p in h.parts && HandleEnd(h).0.parts == h.parts - {p}
    ensures HandleEnd(h).1 ==> HandleEnd(h).0.textBuffer == ""
  {
    if h.parts != {} {
      var p :| p in h.parts;
      EndOrderComplete(p);
    }
  }

  /** With no flag set the end handler does nothing. */
  lemma HandleEndIdle(h: Handler)
    requires h.parts == {}
    ensures HandleEnd(h) == (h, false)
  {
    HandleEndClearsOne(h);
  }

  /** The chain opens with the document number and the date range. */
  lemma EndOrderHead()
    ensures |EndOrder| == 42
    ensures EndOrder[0] == DocNoLabel && EndOrder[1] == DocNoValue
    ensures EndOrder[2] == TimesheetLabel && EndOrder[3] == TimesheetValue
  {
  }

  /** Only the date-range box stores a text. */
  lemma OnlyDaterangeStores()
    ensures forall p :: CheckOf(p).StoreDaterange? <==> p == TimesheetValue
  {
  }

  /** In any chain where only the checks of `q` store a text, the date range
      changes only when `q` is the flag handled, and `q` is handled when no
      flag before it in the chain is set. */
  lemma HandleEndWithStores(order: seq<Part>, checks: Part -> Check, h: Handler, q: Part, k: nat)
    requires forall p :: checks(p).StoreDaterange? <==> p == q
    requires HandleEndWith(order, checks, h).1
    requires k < |order| && order[k] == q
    ensures var r := HandleEndWith(order, checks, h).0;
      && (r.daterange != h.daterange ==> r.daterange == Some(Strip(h.textBuffer)) && q in h.parts)
      && (q in h.parts && (forall j :: 0 <= j < k ==> order[j] !in h.parts) ==>
            r.daterange == Some(Strip(h.textBuffer)) && r.parts == h.parts - {q})
  {
    var i := FirstSet(order, h.parts).value;
    if q in h.parts && (forall j :: 0 <= j < k ==> order[j] !in h.parts) {
      assert i == k;
    }
  }

  /** The date range after a box the end chain handled. */
  lemma HandledDaterange(h: Handler)
    requires HandleEnd(h).1
    ensures var r := HandleEnd(h).0;
      && (r.daterange != h.daterange ==> r.daterange == Some(Strip(h.textBuffer)) && TimesheetValue in h.parts)
      && (TimesheetValue in h.parts && DocNoLabel !in h.parts && DocNoValue !in h.parts && TimesheetLabel !in h.parts ==>
            r.daterange == Some(Strip(h.textBuffer)) && r.parts == h.parts - {TimesheetValue})
  {
    OnlyDaterangeStores();
    EndOrderHead();
    HandleEndWithStores(EndOrder, CheckOf, h, TimesheetValue, 3);
  }

  /** Only the date-range box changes `daterange`, and it stores its text. */
  lemma HandleEndDaterange(h: Handler)
    ensures var r := HandleEnd(h).0;
      && (r.daterange != h.daterange ==> r.daterange == Some(Strip(h.textBuffer)) && TimesheetValue in h.parts)
      && (TimesheetValue in h.parts && DocNoLabel !in h.parts && DocNoValue !in h.parts && TimesheetLabel !in h.parts ==>
            r.daterange == Some(Strip(h.textBuffer)) && r.parts == h.parts - {TimesheetValue})
  {
    HandleEndClearsOne(h);
    if HandleEnd(h).1 {
      HandledDaterange(h);
    }
  }

  // ---- the element callbacks -----------------------------------------------

  /** A SAX event. `id` and `bbox` are the element's attributes of those
      names, when present. */
  datatype Event =
    | Start(name: string, id: Option<string>, bbox: Option<Bbox>)
    | Characters(data: string)
    | End(name: string)

  /** `record_location`: a new line at the box's position, with no text yet. */
  function RecordLocation(h: Handler, b: Bbox): Handler {
    h.(lineBuffer := h.lineBuffer + [Line(b.x, b.y, [])])
  }

  /** `record_text`: the text appended to the last line; `IndexError` when
      there is none. */
  function RecordText(h: Handler, text: string): (r: Result<Handler>)
    ensures r.Ok? <==> |h.lineBuffer| > 0
    ensures r.Ok? ==>
      && |r.value.lineBuffer| == |h.lineBuffer|
      && r.value.lineBuffer[..|h.lineBuffer| - 1] == h.lineBuffer[..|h.lineBuffer| - 1]
      && var last := h.lineBuffer[|h.lineBuffer| - 1];
         r.value.lineBuffer[|h.lineBuffer| - 1] == last.(texts := last.texts + [text])
    ensures r.Ok? ==> r.value.(lineBuffer := h.lineBuffer) == h
  {
    if |h.lineBuffer| == 0 then Err(IndexError)
    else
      var n := |h.lineBuffer| - 1;
      var last := h.lineBuffer[n];
      Ok(h.(lineBuffer := h.lineBuffer[..n] + [last.(texts := last.texts + [text])]))
  }

  /** `sort_lines`: the page's lines in reading order go to the page buffer. */
  function SortPage(h: Handler): Handler {
    h.(lineBuffer := [], pageBuffer := h.pageBuffer + [SortLines(h.lineBuffer)])
  }

  /** `startElement`. A missing attribute raises `KeyError`. */
  function StartElement(h: Handler, name: string, id: Option<string>, bbox: Option<Bbox>): Result<Handler> {
    if name == "page" then
      if id.None? then Err(KeyError) else Ok(h.(inFigure := false, pagenum := id))
    else if name == "figure" then
      Ok(h.(inFigure := true))
    else if !h.inFigure && !h.inHoursDistribution then
      if name == "textbox" then
        if bbox.None? then Err(KeyError)
        else
          var (parts, handled) := HandleStart(h.parts, h.pagenum, Locate(bbox.value));
          var h1 := if handled then h.(parts := parts) else RecordLocation(h, bbox.value);
          Ok(h1.(inTextbox := true))
      else if h.inTextbox && name == "text" then
        Ok(h.(inText := true))
      else
        Ok(h)
    else
      Ok(h)
  }

  /** `characters`: text is buffered only inside a `text` element. */
  function CharactersIn(h: Handler, data: string): Handler {
    if h.inText then h.(textBuffer := h.textBuffer + data) else h
  }

  /** `endElement`. */
  function EndElement(h: Handler, name: string): Result<Handler> {
    if name == "page" then
      Ok(SortPage(h))
    else if !h.inFigure && !h.inHoursDistribution then
      if name == "textbox" then
        var (h1, handled) := HandleEnd(h);
        if handled then
          Ok(h1.(inTextbox := false))
        else
          var (h2, text) := PopBuffer(h);
          if text == FooterMarker then
            Ok(h2.(inHoursDistribution := true, inTextbox := false))
          else
            var h3 :- RecordText(h2, text);
            Ok(h3.(inTextbox := false))
      else if name == "text" then
        Ok(h.(inText := false))
      else
        Ok(h)
    else
      Ok(h)
  }

  function Step(h: Handler, e: Event): Result<Handler> {
    match e
    case Start(name, id, bbox) => StartElement(h, name, id, bbox)
    case Characters(data) => Ok(CharactersIn(h, data))
    case End(name) => EndElement(h, name)
  }

  /** The handler driven through a sequence of events, stopping at the
      first exception. */
  function Run(h: Handler, events: seq<Event>): Result<Handler>
    decreases |events|
  {
    if |events| == 0 then Ok(h)
    else
      var h1 :- Step(h, events[0]);
      Run(h1, events[1..])
  }

  // ---- what the callbacks promise ------------------------------------------

  /** The end of a page puts its lines, sorted top to bottom and then left to
      right, as one more page: the same lines, ties in their original order. */
  lemma EndPageSorts(h: Handler)
    ensures Step(h, End("page")).Ok?
    ensures var r := Step(h, End("page")).value;
      && r.lineBuffer == []
      && |r.pageBuffer| == |h.pageBuffer| + 1
      && r.pageBuffer[..|h.pageBuffer|] == h.pageBuffer
      && var page := r.pageBuffer[|h.pageBuffer|];
         && Sorted(page)
         && multiset(page) == multiset(h.lineBuffer)
         && forall k :: WithKey(page, k) == WithKey(h.lineBuffer, k)
  {
    SortLinesSorted(h.lineBuffer);
    forall k ensures WithKey(SortLines(h.lineBuffer), k) == WithKey(h.lineBuffer, k) {
      SortLinesStable(h.lineBuffer, k);
    }
    var r := Step(h, End("page")).value;
    assert r.pageBuffer[..|h.pageBuffer|] == h.pageBuffer;
  }

  /** A text box outside the header and footer slots is recorded at its start
      as one new line with no text. */
  lemma StartRecords(h: Handler, b: Bbox, id: Option<string>)
    requires !h.inFigure && !h.inHoursDistribution
    requires !HandleStart(h.parts, h.pagenum, Locate(b)).1
    ensures Step(h, Start("textbox", id, Some(b))) ==
      Ok(h.(lineBuffer := h.lineBuffer + [Line(b.x, b.y, [])], inTextbox := true))
  {
  }

  /** A header or footer box raises its flag and records nothing. */
  lemma StartSuppresses(h: Handler, b: Bbox, id: Option<string>)
    requires !h.inFigure && !h.inHoursDistribution
    requires HandleStart(h.parts, h.pagenum, Locate(b)).1
    ensures Step(h, Start("textbox", id, Some(b))) ==
      Ok(h.(parts := HandleStart(h.parts, h.pagenum, Locate(b)).0, inTextbox := true))
  {
  }

  /** With no flag set, the end of a box appends its stripped text to the
      last line, unless the text is the hours-distribution heading, which
      instead stops all recording and leaves the lines as they are. */
  lemma EndRecords(h: Handler)
    requires !h.inFigure && !h.inHoursDistribution && h.parts == {}
    ensures var text := Strip(h.textBuffer);
      var r := Step(h, End("textbox"));
      && (text == FooterMarker ==> r.Ok? && r.value.inHoursDistribution && r.value.lineBuffer == h.lineBuffer)
      && (text != FooterMarker && |h.lineBuffer| > 0 ==>
            && r.Ok? && r.value.textBuffer == ""
            && r.value.lineBuffer == h.lineBuffer[..|h.lineBuffer| - 1]
                 + [h.lineBuffer[|h.lineBuffer| - 1].(texts := h.lineBuffer[|h.lineBuffer| - 1].texts + [text])])
      && (text != FooterMarker && |h.lineBuffer| == 0 ==> r == Err(IndexError))
  {
    HandleEndIdle(h);
    var h2 := PopBuffer(h).0;
    if Strip(h.textBuffer) != FooterMarker && |h.lineBuffer| > 0 {
      var r := RecordText(h2, Strip(h.textBuffer)).value;
      var n := |h.lineBuffer| - 1;
      assert r.lineBuffer == r.lineBuffer[..n] + [r.lineBuffer[n]];
    }
  }

  /** Every line recorded so far, page by page and then the current page. */
  function Flatten(pages: seq<seq<Line>>): seq<Line> {
    if |pages| == 0 then [] else Flatten(pages[..|pages| - 1]) + pages[|pages| - 1]
  }

  function Lines(h: Handler): multiset<Line> {
    multiset(Flatten(h.pageBuffer)) + multiset(h.lineBuffer)
  }

  /** Once the hours-distribution heading has been seen no event records a
      line or a text again, and the flag stays set. */
  lemma StepSticky(h: Handler, e: Event)
    requires h.inHoursDistribution && Step(h, e).Ok?
    ensures Step(h, e).value.inHoursDistribution
    ensures Lines(Step(h, e).value) == Lines(h)
  {
    if e == End("page") {
      var r := SortPage(h);
      assert r.pageBuffer[..|r.pageBuffer| - 1] == h.pageBuffer;
      assert Flatten(r.pageBuffer) == Flatten(h.pageBuffer) + SortLines(h.lineBuffer);
    }
  }

  lemma {:induction false} RunSticky(h: Handler, events: seq<Event>)
    requires h.inHoursDistribution && Run(h, events).Ok?
    ensures Run(h, events).value.inHoursDistribution
    ensures Lines(Run(h, events).value) == Lines(h)
    decreases |events|
  {
    if |events| > 0 {
      StepSticky(h, events[0]);
      RunSticky(Step(h, events[0]).value, events[1..]);
    }
  }
}
