/** Attendance: single records, the all-or-nothing bulk import, and overtime that absence rules out. */
module TimeRecords {
  import opened Wrappers

  type Id = nat

  datatype Status = Present | Absent

  datatype TimeRecord = TimeRecord(
    status: Status, overtime: real, location: Option<Id>, department: Option<Id>, approvedBy: Option<Id>)

  /** One record for an employee and day. */
  type Key = (string, int)

  type Store = map<Key, TimeRecord>

  datatype Employee = Employee(location: Option<Id>, department: Option<Id>)

  /** `exempt` from the department check are branch managers and HR. */
  datatype Actor = Actor(isAdmin: bool, exempt: bool, location: Option<Id>, department: Option<Id>)

  predicate MayAccess(actor: Actor, employee: Employee) {
    || actor.isAdmin
    || (&& (actor.location.Some? ==> employee.location == actor.location)
        && (!actor.exempt && actor.department.Some? ==> employee.department == actor.department))
  }

  function NormalizeHours(status: Status, hours: Option<real>): real {
    if status == Absent || hours == None then 0.0 else hours.value
  }

  /** Absence and overtime exclude each other. */
  ghost predicate Consistent(store: Store) {
    forall key :: key in store && store[key].status == Absent ==> store[key].overtime == 0.0
  }

  // ---------- bulk rows and their errors ----------

  datatype Day = NoDate | BadDate | On(day: int)

  /** A row as sent: `status` and `employee` are text, empty when missing. */
  datatype Row = Row(employee: string, status: string, overtime: Option<real>, date: Day)

  datatype Problem =
    | EmployeeRequired | EmployeeNotNumeric | EmployeeUnknown | OtherLocation | OtherDepartment | NoAccess
    | StatusRequired | StatusUnknown | OvertimeWhileAbsent | DateRequired | DateInvalid | DateOutOfRange

  datatype RowError = RowError(row: nat, problem: Problem)

  /** What the rows are checked against: the employees that exist, the scope, the actor and the date range. */
  datatype Context = Context(
    employees: map<string, Employee>, location: Option<Id>, department: Option<Id>, actor: Actor, from: int, to: int)

  predicate IsNumeric(text: string) {
    text != "" && forall k :: 0 <= k < |text| ==> '0' <= text[k] <= '9'
  }

  function StatusProblems(row: Row): seq<Problem> {
    (if row.status == "" then [StatusRequired]
     else if row.status !in {"PRESENT", "ABSENT"} then [StatusUnknown]
     else [])
    + (if row.status == "ABSENT" && row.overtime.Some? && row.overtime.value > 0.0 then [OvertimeWhileAbsent] else [])
  }

  function DateProblems(row: Row, context: Context): seq<Problem> {
    match row.date
    case NoDate => [DateRequired]
    case BadDate => [DateInvalid]
    case On(day) => if day < context.from || day > context.to then [DateOutOfRange] else []
  }

  /** An unusable employee ends the checks of a row; the later checks all report. */
  function RowProblems(row: Row, context: Context): seq<Problem> {
    if row.employee == "" then [EmployeeRequired]
    else if !IsNumeric(row.employee) then [EmployeeNotNumeric]
    else if row.employee !in context.employees then [EmployeeUnknown]
    else
      var employee := context.employees[row.employee];
      if context.location.Some? && employee.location != context.location then [OtherLocation]
      else if context.department.Some? && employee.department != context.department then [OtherDepartment]
      else
        (if MayAccess(context.actor, employee) then [] else [NoAccess])
        + StatusProblems(row) + DateProblems(row, context)
  }

  function Numbered(row: nat, problems: seq<Problem>): seq<RowError> {
    if problems == [] then []
    else Numbered(row, problems[..|problems| - 1]) + [RowError(row, problems[|problems| - 1])]
  }

  /** Every row's problems, rows numbered from one. */
  function AllErrors(rows: seq<Row>, context: Context): seq<RowError> {
    if rows == [] then []
    else
      var last := |rows| - 1;
      AllErrors(rows[..last], context) + Numbered(last + 1, RowProblems(rows[last], context))
  }

  /** A row that can be stored: an accessible employee of the scope, a known status, a day in range, and no
      overtime while absent. */
  predicate IsGood(row: Row, context: Context) {
    && IsNumeric(row.employee) && row.employee in context.employees
    && var employee := context.employees[row.employee];
       && (context.location.Some? ==> employee.location == context.location)
       && (context.department.Some? ==> employee.department == context.department)
       && MayAccess(context.actor, employee)
       && (row.status == "PRESENT" || (row.status == "ABSENT" && (row.overtime == None || row.overtime.value <= 0.0)))
       && row.date.On? && context.from <= row.date.day <= context.to
  }

  ghost predicate AllGood(rows: seq<Row>, context: Context) {
    forall k :: 0 <= k < |rows| ==> IsGood(rows[k], context)
  }

  lemma NoProblemsIff(row: Row, context: Context)
    ensures RowProblems(row, context) == [] <==> IsGood(row, context)
  {
  }

  lemma NumberedIsEmptyIff(row: nat, problems: seq<Problem>)
    ensures Numbered(row, problems) == [] <==> problems == []
  {
  }

  /** There is no error exactly when every row is good. */
  lemma {:induction false} NoErrorsIff(rows: seq<Row>, context: Context)
    ensures AllErrors(rows, context) == [] <==> AllGood(rows, context)
  {
    if rows != [] {
      var last := |rows| - 1;
      NoErrorsIff(rows[..last], context);
      NoProblemsIff(rows[last], context);
      LastErrors(rows, context);
      LastGood(rows, context);
    }
  }

  lemma LastErrors(rows: seq<Row>, context: Context)
    requires rows != []
    ensures AllErrors(rows, context) == [] <==>
            AllErrors(rows[..|rows| - 1], context) == [] && RowProblems(rows[|rows| - 1], context) == []
  {
    NumberedIsEmptyIff(|rows|, RowProblems(rows[|rows| - 1], context));
  }

  lemma LastGood(rows: seq<Row>, context: Context)
    requires rows != []
    ensures AllGood(rows, context) <==> AllGood(rows[..|rows| - 1], context) && IsGood(rows[|rows| - 1], context)
  {
    var front := rows[..|rows| - 1];
    assert forall k :: 0 <= k < |front| ==> front[k] == rows[k];
  }

  // ---------- upserts ----------

  function KeyOf(row: Row): Key
    requires row.date.On?
  {
    (row.employee, row.date.day)
  }

  function StatusOf(row: Row): Status {
    if row.status == "ABSENT" then Absent else Present
  }

  /** An existing record keeps everything but status and overtime. */
  function Upsert(store: Store, row: Row, employee: Employee): Store
    requires row.date.On?
  {
    var status := StatusOf(row);
    var overtime := NormalizeHours(status, row.overtime);
    var record :=
      if KeyOf(row) in store then store[KeyOf(row)].(status := status, overtime := overtime)
      else TimeRecord(status, overtime, employee.location, employee.department, None);
    store[KeyOf(row) := record]
  }

  function UpsertAll(store: Store, rows: seq<Row>, context: Context): Store
    requires AllGood(rows, context)
  {
    if rows == [] then store
    else
      var last := rows[|rows| - 1];
      Upsert(UpsertAll(store, rows[..|rows| - 1], context), last, context.employees[last.employee])
  }

  /** The records differ at most in status and overtime. */
  predicate SameBesides(x: TimeRecord, y: TimeRecord) {
    x.location == y.location && x.department == y.department && x.approvedBy == y.approvedBy
  }

  predicate IsRowFor(row: Row, key: Key) {
    row.employee == key.0 && row.date == On(key.1)
  }

  /** The row is the last for its employee and day. */
  ghost predicate IsLastFor(rows: seq<Row>, n: int, key: Key) {
    && 0 <= n < |rows| && IsRowFor(rows[n], key)
    && forall k :: n < k < |rows| ==> !IsRowFor(rows[k], key)
  }

  /** The record is absent exactly when the row says so, and then has no overtime; present, it has the row's
      hours, or none when none are given. An old record keeps its other fields, a new one takes the employee's. */
  predicate Stores(store: Store, store': Store, row: Row, employees: map<string, Employee>, key: Key) {
    && key in store'
    && (store'[key].status == Absent <==> row.status == "ABSENT")
    && (row.status == "ABSENT" || row.overtime.None? ==> store'[key].overtime == 0.0)
    && (row.status != "ABSENT" && row.overtime.Some? ==> store'[key].overtime == row.overtime.value)
    && (key in store ==> SameBesides(store[key], store'[key]))
    && (key !in store ==>
          && key.0 in employees && store'[key].approvedBy == None
          && store'[key].location == employees[key.0].location
          && store'[key].department == employees[key.0].department)
  }

  /** What every record of the new store is: the last row's for its key, or else the old one. */
  ghost predicate LastRowsWin(store: Store, store': Store, rows: seq<Row>, employees: map<string, Employee>) {
    forall key :: KeyIsDecided(store, store', rows, employees, key)
  }

  ghost predicate KeyIsDecided(
    store: Store, store': Store, rows: seq<Row>, employees: map<string, Employee>, key: Key)
  {
    && (forall n :: IsLastFor(rows, n, key) ==> Stores(store, store', rows[n], employees, key))
    && ((forall n :: 0 <= n < |rows| ==> !IsRowFor(rows[n], key)) ==>
          (key in store' <==> key in store) && (key in store ==> store'[key] == store[key]))
  }

  lemma UpsertStores(store: Store, row: Row, employee: Employee, context: Context, key: Key)
    requires row.date.On? && row.employee in context.employees && employee == context.employees[row.employee]
    ensures var store' := Upsert(store, row, employee);
            if IsRowFor(row, key) then Stores(store, store', row, context.employees, key)
            else (key in store' <==> key in store) && (key in store ==> store'[key] == store[key])
  {
  }

  /** An old record has its other fields still, a new one the employee's. */
  predicate FieldsStand(store: Store, store': Store, employees: map<string, Employee>, key: Key) {
    && (key in store ==> key in store' && SameBesides(store[key], store'[key]))
    && (key !in store && key in store' ==>
          && key.0 in employees && store'[key].approvedBy == None
          && store'[key].location == employees[key.0].location
          && store'[key].department == employees[key.0].department)
  }

  lemma {:induction false} OtherFieldsStand(store: Store, rows: seq<Row>, context: Context, key: Key)
    requires AllGood(rows, context)
    ensures FieldsStand(store, UpsertAll(store, rows, context), context.employees, key)
  {
    if rows != [] {
      var front, last := rows[..|rows| - 1], rows[|rows| - 1];
      OtherFieldsStand(store, front, context, key);
      UpsertStores(UpsertAll(store, front, context), last, context.employees[last.employee], context, key);
    }
  }

  /** Last row wins, key by key. */
  lemma {:induction false} LastRowWins(store: Store, rows: seq<Row>, context: Context, key: Key)
    requires AllGood(rows, context)
    ensures KeyIsDecided(store, UpsertAll(store, rows, context), rows, context.employees, key)
  {
    if rows != [] {
      var front, last := rows[..|rows| - 1], rows[|rows| - 1];
      LastRowWins(store, front, context, key);
      OtherFieldsStand(store, front, context, key);
      UpsertStores(UpsertAll(store, front, context), last, context.employees[last.employee], context, key);
      LastDecides(store, UpsertAll(store, front, context), UpsertAll(store, rows, context), rows,
                  context.employees, key);
    }
  }

  lemma LastDecides(store: Store, mid: Store, after: Store, rows: seq<Row>, employees: map<string, Employee>, key: Key)
    requires rows != [] && KeyIsDecided(store, mid, rows[..|rows| - 1], employees, key)
    requires FieldsStand(store, mid, employees, key)
    requires if IsRowFor(rows[|rows| - 1], key) then Stores(mid, after, rows[|rows| - 1], employees, key)
             else (key in after <==> key in mid) && (key in mid ==> after[key] == mid[key])
    ensures KeyIsDecided(store, after, rows, employees, key)
  {
    var last := rows[|rows| - 1];
    if IsRowFor(last, key) {
      StoresThrough(store, mid, after, last, employees, key);
      forall n | IsLastFor(rows, n, key) ensures rows[n] == last {
      }
    } else {
      OtherRowDecidesNot(rows, key);
    }
  }

  lemma StoresThrough(store: Store, mid: Store, after: Store, row: Row, employees: map<string, Employee>, key: Key)
    requires FieldsStand(store, mid, employees, key) && Stores(mid, after, row, employees, key)
    ensures Stores(store, after, row, employees, key)
  {
  }

  lemma OtherRowDecidesNot(rows: seq<Row>, key: Key)
    requires rows != [] && !IsRowFor(rows[|rows| - 1], key)
    ensures var front := rows[..|rows| - 1];
            && (forall n :: IsLastFor(rows, n, key) ==> IsLastFor(front, n, key) && front[n] == rows[n])
            && ((forall n :: 0 <= n < |rows| ==> !IsRowFor(rows[n], key)) ==>
                  forall n :: 0 <= n < |front| ==> !IsRowFor(front[n], key))
  {
  }

  lemma LastRowsWinAll(store: Store, rows: seq<Row>, context: Context)
    requires AllGood(rows, context)
    ensures LastRowsWin(store, UpsertAll(store, rows, context), rows, context.employees)
  {
    forall key ensures KeyIsDecided(store, UpsertAll(store, rows, context), rows, context.employees, key) {
      LastRowWins(store, rows, context, key);
    }
  }

  // ---------- the operations ----------

  datatype Error =
    | NoRecords | NoValidDates | BadRange | Rejected(errors: seq<RowError>)
    | UnknownEmployee | Forbidden | AlreadyExists | NotFound

  /** The days of the rows that have a valid one. */
  function Days(rows: seq<Row>): seq<int> {
    if rows == [] then []
    else Days(rows[..|rows| - 1]) + match rows[|rows| - 1].date case On(day) => [day] case _ => []
  }

  function Least(days: seq<int>): (d: int)
    requires days != []
    ensures d in days && forall x :: x in days ==> d <= x
  {
    if |days| == 1 then days[0]
    else
      assert days == days[..|days| - 1] + [days[|days| - 1]];
      var d := Least(days[..|days| - 1]);
      if days[|days| - 1] < d then days[|days| - 1] else d
  }

  function Greatest(days: seq<int>): (d: int)
    requires days != []
    ensures d in days && forall x :: x in days ==> x <= d
  {
    if |days| == 1 then days[0]
    else
      assert days == days[..|days| - 1] + [days[|days| - 1]];
      var d := Greatest(days[..|days| - 1]);
      if days[|days| - 1] > d then days[|days| - 1] else d
  }

  /** The range given, or else the rows' own. */
  function DateRange(rows: seq<Row>, range: Option<(int, int)>): Result<(int, int), Error> {
    if range.Some? then (if range.value.1 < range.value.0 then Err(BadRange) else Ok(range.value))
    else if Days(rows) == [] then Err(NoValidDates)
    else Ok((Least(Days(rows)), Greatest(Days(rows))))
  }

  /** `bulkCreate`; the range in `context` is replaced by the request's. */
  function BulkCreate(store: Store, rows: seq<Row>, range: Option<(int, int)>, context: Context): Result<Store, Error> {
    if rows == [] then Err(NoRecords)
    else
      match DateRange(rows, range)
      case Err(e) => Err(e)
      case Ok(bounds) =>
        var checked := context.(from := bounds.0, to := bounds.1);
        if AllErrors(rows, checked) != [] then Err(Rejected(AllErrors(rows, checked)))
        else
          NoErrorsIff(rows, checked);
          Ok(UpsertAll(store, rows, checked))
  }

  lemma {:induction false} DayIsListed(rows: seq<Row>, k: nat)
    requires k < |rows| && rows[k].date.On?
    ensures rows[k].date.day in Days(rows)
  {
    if k < |rows| - 1 {
      DayIsListed(rows[..|rows| - 1], k);
    }
  }

  lemma {:induction false} SomeDayListed(rows: seq<Row>)
    ensures Days(rows) != [] <==> exists k :: 0 <= k < |rows| && rows[k].date.On?
  {
    if rows != [] {
      var front := rows[..|rows| - 1];
      SomeDayListed(front);
      assert forall k :: 0 <= k < |front| ==> front[k] == rows[k];
    }
  }

  predicate Proper(range: Option<(int, int)>) {
    range.Some? ==> range.value.0 <= range.value.1
  }

  /** Inside the given range or, without one, simply dated. */
  predicate FitsRange(row: Row, range: Option<(int, int)>) {
    row.date.On? && (range.Some? ==> range.value.0 <= row.date.day <= range.value.1)
  }

  /** An admin reaches everyone; others only their own location and, unless exempt, department, where they have
      one. */
  predicate IsInReach(actor: Actor, employee: Employee) {
    actor.isAdmin
    || ((actor.location == None || employee.location == actor.location)
        && (actor.exempt || actor.department == None || employee.department == actor.department))
  }

  /** A digits-only id of an employee in the scope whom the actor may manage, PRESENT, or ABSENT without
      overtime, on a day that is in the range when one is given. */
  predicate IsStorable(row: Row, range: Option<(int, int)>, context: Context) {
    && row.employee != "" && (forall k | 0 <= k < |row.employee| :: '0' <= row.employee[k] <= '9')
    && row.employee in context.employees
    && var employee, actor := context.employees[row.employee], context.actor;
       && (context.location == None || employee.location == context.location)
       && (context.department == None || employee.department == context.department)
       && IsInReach(actor, employee)
       && (row.status == "PRESENT" || (row.status == "ABSENT" && (row.overtime == None || row.overtime.value <= 0.0)))
       && match row.date
          case On(day) => range == None || (range.value.0 <= day && day <= range.value.1)
          case _ => false
  }

  lemma StorableIff(row: Row, range: Option<(int, int)>, context: Context)
    ensures IsStorable(row, range, context) <==>
            FitsRange(row, range) && IsGood(row, context.(from := row.date.day, to := row.date.day))
  {
  }

  /** All or nothing: the import stores every row exactly when there are rows, the range is proper, and each
      row is storable; without a given range no date is out of range. */
  lemma ImportedIff(store: Store, rows: seq<Row>, range: Option<(int, int)>, context: Context)
    ensures BulkCreate(store, rows, range, context).Ok? <==>
            && rows != [] && (range == None || range.value.0 <= range.value.1)
            && forall k :: 0 <= k < |rows| ==> IsStorable(rows[k], range, context)
  {
    RangeIsFoundUnless(rows, range);
    if DateRange(rows, range).Ok? {
      var bounds := DateRange(rows, range).value;
      var checked := context.(from := bounds.0, to := bounds.1);
      NoErrorsIff(rows, checked);
      forall k | 0 <= k < |rows| ensures IsGood(rows[k], checked) <==> IsStorable(rows[k], range, context) {
        GoodIff(rows, range, context, k);
      }
    } else {
      assert rows != [] ==> !IsStorable(rows[0], range, context) || !Proper(range);
    }
  }

  lemma GoodIff(rows: seq<Row>, range: Option<(int, int)>, context: Context, k: nat)
    requires k < |rows| && DateRange(rows, range).Ok?
    ensures var bounds := DateRange(rows, range).value;
            IsGood(rows[k], context.(from := bounds.0, to := bounds.1)) <==> IsStorable(rows[k], range, context)
  {
    InBoundsIff(rows, range, k);
    StorableIff(rows[k], range, context);
  }

  /** The import stores the last row of each key, or nothing. */
  lemma ImportStoresLastRows(store: Store, rows: seq<Row>, range: Option<(int, int)>, context: Context)
    ensures match BulkCreate(store, rows, range, context)
            case Ok(store') => LastRowsWin(store, store', rows, context.employees)
            case Err(_) => true
  {
    if BulkCreate(store, rows, range, context).Ok? {
      var bounds := DateRange(rows, range).value;
      var checked := context.(from := bounds.0, to := bounds.1);
      NoErrorsIff(rows, checked);
      LastRowsWinAll(store, rows, checked);
    }
  }

  // ---------- what the errors say ----------

  /** The employee can be used: named by digits, known, and of the scope. */
  predicate IsUsable(row: Row, context: Context) {
    && row.employee != "" && (forall k | 0 <= k < |row.employee| :: '0' <= row.employee[k] <= '9')
    && row.employee in context.employees
    && (context.location == None || context.employees[row.employee].location == context.location)
    && (context.department == None || context.employees[row.employee].department == context.department)
  }

  /** When each of the later problems is reported: of a usable employee, and independently of each other. */
  lemma LaterProblemsIff(row: Row, context: Context)
    requires IsUsable(row, context)
    ensures var problems := RowProblems(row, context);
            && (NoAccess in problems <==> !IsInReach(context.actor, context.employees[row.employee]))
            && (StatusRequired in problems <==> row.status == "")
            && (StatusUnknown in problems <==> row.status !in {"", "PRESENT", "ABSENT"})
            && (OvertimeWhileAbsent in problems <==>
                  row.status == "ABSENT" && row.overtime.Some? && row.overtime.value > 0.0)
            && (DateRequired in problems <==> row.date == NoDate)
            && (DateInvalid in problems <==> row.date == BadDate)
            && (DateOutOfRange in problems <==>
                  row.date.On? && !(context.from <= row.date.day <= context.to))
  {
    StatusProblemsIff(row);
    DateProblemsIff(row, context);
  }

  lemma StatusProblemsIff(row: Row)
    ensures var problems := StatusProblems(row);
            && (StatusRequired in problems <==> row.status == "")
            && (StatusUnknown in problems <==> row.status !in {"", "PRESENT", "ABSENT"})
            && (OvertimeWhileAbsent in problems <==>
                  row.status == "ABSENT" && row.overtime.Some? && row.overtime.value > 0.0)
            && (forall p :: p in problems ==> p in {StatusRequired, StatusUnknown, OvertimeWhileAbsent})
  {
  }

  lemma DateProblemsIff(row: Row, context: Context)
    ensures var problems := DateProblems(row, context);
            && (DateRequired in problems <==> row.date == NoDate)
            && (DateInvalid in problems <==> row.date == BadDate)
            && (DateOutOfRange in problems <==>
                  row.date.On? && !(context.from <= row.date.day <= context.to))
            && (forall p :: p in problems ==> p in {DateRequired, DateInvalid, DateOutOfRange})
  {
  }

  /** An employee that cannot be used is the row's only problem, and the first reason is the one given. */
  lemma FirstProblemIff(row: Row, context: Context)
    requires !IsUsable(row, context)
    ensures var digits := forall k | 0 <= k < |row.employee| :: '0' <= row.employee[k] <= '9';
            RowProblems(row, context) ==
            if row.employee == "" then [EmployeeRequired]
            else if !digits then [EmployeeNotNumeric]
            else if row.employee !in context.employees then [EmployeeUnknown]
            else if context.location != None && context.employees[row.employee].location != context.location
            then [OtherLocation]
            else [OtherDepartment]
  {
  }

  /** The report names exactly the problems of each row, by the row's number. */
  lemma {:induction false} ErrorsNameRows(rows: seq<Row>, context: Context, e: RowError)
    ensures e in AllErrors(rows, context) <==>
            1 <= e.row <= |rows| && e.problem in RowProblems(rows[e.row - 1], context)
  {
    if rows != [] {
      ErrorsNameRows(rows[..|rows| - 1], context, e);
      NumberedHolds(|rows|, RowProblems(rows[|rows| - 1], context), e);
    }
  }

  lemma {:induction false} NumberedHolds(row: nat, problems: seq<Problem>, e: RowError)
    ensures e in Numbered(row, problems) <==> e.row == row && e.problem in problems
  {
    if problems != [] {
      var front, last := problems[..|problems| - 1], problems[|problems| - 1];
      NumberedHolds(row, front, e);
      assert problems == front + [last];
    }
  }

  lemma InBoundsIff(rows: seq<Row>, range: Option<(int, int)>, k: nat)
    requires k < |rows| && DateRange(rows, range).Ok?
    ensures var bounds := DateRange(rows, range).value;
            rows[k].date.On? && bounds.0 <= rows[k].date.day <= bounds.1 <==> FitsRange(rows[k], range)
  {
    if rows[k].date.On? {
      DayIsListed(rows, k);
    }
  }

  lemma RangeIsFoundUnless(rows: seq<Row>, range: Option<(int, int)>)
    ensures DateRange(rows, range).Ok? <==>
            Proper(range) && (range.Some? || exists k :: 0 <= k < |rows| && rows[k].date.On?)
  {
    SomeDayListed(rows);
  }

  function Create(store: Store, key: Key, employee: Option<Employee>, status: Option<Status>, hours: Option<real>,
                  actor: Actor)
    : Result<Store, Error>
  {
    if employee == None then Err(UnknownEmployee)
    else if !MayAccess(actor, employee.value) then Err(Forbidden)
    else if key in store then Err(AlreadyExists)
    else
      var s := if status.Some? then status.value else Present;
      Ok(store[key := TimeRecord(s, NormalizeHours(s, hours), employee.value.location,
                                 employee.value.department, None)])
  }

  function Update(store: Store, key: Key, employee: Employee, status: Option<Status>, hours: Option<real>, actor: Actor)
    : Result<Store, Error>
  {
    if key !in store then Err(NotFound)
    else if !MayAccess(actor, employee) then Err(Forbidden)
    else
      var s := if status.Some? then status.value else store[key].status;
      var h := if hours.Some? then hours else Some(store[key].overtime);
      Ok(store[key := store[key].(status := s, overtime := NormalizeHours(s, h))])
  }

  function Approve(store: Store, key: Key, employee: Employee, actor: Actor, approver: Id): Result<Store, Error> {
    if key !in store then Err(NotFound)
    else if !MayAccess(actor, employee) then Err(Forbidden)
    else Ok(store[key := store[key].(approvedBy := Some(approver))])
  }

  datatype Step =
    | BulkStep(rows: seq<Row>, range: Option<(int, int)>, context: Context)
    | CreateStep(key: Key, employee: Option<Employee>, status: Option<Status>, hours: Option<real>, actor: Actor)
    | UpdateStep(key: Key, row: Employee, status: Option<Status>, hours: Option<real>, actor: Actor)
    | ApproveStep(key: Key, row: Employee, actor: Actor, approver: Id)

  function Outcome(store: Store, step: Step): Result<Store, Error> {
    match step
    case BulkStep(rows, range, context) => BulkCreate(store, rows, range, context)
    case CreateStep(key, employee, status, hours, actor) => Create(store, key, employee, status, hours, actor)
    case UpdateStep(key, row, status, hours, actor) => Update(store, key, row, status, hours, actor)
    case ApproveStep(key, row, actor, approver) => Approve(store, key, row, actor, approver)
  }

  function Run(steps: seq<Step>): Store {
    if steps == [] then map[]
    else
      var before := Run(steps[..|steps| - 1]);
      match Outcome(before, steps[|steps| - 1])
      case Ok(store) => store
      case Err(_) => before
  }

  lemma {:induction false} UpsertsKeepConsistent(store: Store, rows: seq<Row>, context: Context)
    requires Consistent(store) && AllGood(rows, context)
    ensures Consistent(UpsertAll(store, rows, context))
  {
    if rows != [] {
      UpsertsKeepConsistent(store, rows[..|rows| - 1], context);
    }
  }

  lemma BulkKeepsConsistent(store: Store, rows: seq<Row>, range: Option<(int, int)>, context: Context)
    requires Consistent(store) && BulkCreate(store, rows, range, context).Ok?
    ensures Consistent(BulkCreate(store, rows, range, context).value)
  {
    var bounds := DateRange(rows, range).value;
    var checked := context.(from := bounds.0, to := bounds.1);
    NoErrorsIff(rows, checked);
    UpsertsKeepConsistent(store, rows, checked);
  }

  /** After any run no absence carries overtime, so payroll's overtime comes from days of presence only. */
  lemma {:induction false} AbsencesHaveNoOvertime(steps: seq<Step>)
    ensures Consistent(Run(steps))
  {
    if steps != [] {
      var before, step := Run(steps[..|steps| - 1]), steps[|steps| - 1];
      AbsencesHaveNoOvertime(steps[..|steps| - 1]);
      if step.BulkStep? && Outcome(before, step).Ok? {
        BulkKeepsConsistent(before, step.rows, step.range, step.context);
      }
    }
  }

  lemma BulkOutcome(store: Store, rows: seq<Row>, range: Option<(int, int)>, context: Context)
    requires Consistent(store)
    ensures match BulkCreate(store, rows, range, context) case Ok(store') => Consistent(store') case Err(_) => true
  {
    if BulkCreate(store, rows, range, context).Ok? {
      BulkKeepsConsistent(store, rows, range, context);
    }
  }

  /** The stores differ at most at the key. */
  ghost predicate SameElsewhere(store: Store, store': Store, key: Key) {
    forall k :: k != key ==> (k in store <==> k in store') && (k in store ==> store[k] == store'[k])
  }

  class TimeRecordService {
    var records: Store

    constructor ()
      ensures records == map[] && Consistent(records)
    {
      records := map[];
    }

    /** All rows are stored or none is, and absences keep no overtime either way. */
    method BulkImport(rows: seq<Row>, range: Option<(int, int)>, context: Context) returns (error: Option<Error>)
      requires Consistent(records)
      modifies this
      ensures Consistent(records)
      ensures error == None <==>
                && rows != [] && (range == None || range.value.0 <= range.value.1)
                && forall k :: 0 <= k < |rows| ==> IsStorable(rows[k], range, context)
      ensures if error == None then LastRowsWin(old(records), records, rows, context.employees)
              else records == old(records)
      ensures match BulkCreate(old(records), rows, range, context)
              case Ok(store) => error == None && records == store
              case Err(e) => error == Some(e) && records == old(records)
    {
      BulkOutcome(records, rows, range, context);
      ImportedIff(records, rows, range, context);
      ImportStoresLastRows(records, rows, range, context);
      if |rows| == 0 {
        return Some(NoRecords);
      }
      var bounds := DateRange(rows, range);
      if bounds.Err? {
        return Some(bounds.error);
      }
      var checked := context.(from := bounds.value.0, to := bounds.value.1);
      var errors := CollectErrors(rows, checked);
      if |errors| > 0 {
        return Some(Rejected(errors));
      }
      NoErrorsIff(rows, checked);
      UpsertRows(rows, checked);
      return None;
    }

    /** A first record for the employee and day, without overtime for an absence; every other stays. */
    method CreateRecord(key: Key, employee: Option<Employee>, status: Option<Status>, hours: Option<real>, actor: Actor)
      returns (error: Option<Error>)
      requires Consistent(records)
      modifies this
      ensures Consistent(records) && SameElsewhere(old(records), records, key)
      ensures error == match employee
                       case None => Some(UnknownEmployee)
                       case Some(e) => if !IsInReach(actor, e) then Some(Forbidden)
                                       else if key in old(records) then Some(AlreadyExists) else None
      ensures error == None ==>
                && key !in old(records) && key in records
                && employee.Some? && records[key].location == employee.value.location
                && records[key].department == employee.value.department && records[key].approvedBy == None
                && records[key].status == (match status case Some(given) => given case None => Present)
                && (records[key].status == Absent || hours.None? ==> records[key].overtime == 0.0)
                && (records[key].status == Present && hours.Some? ==> records[key].overtime == hours.value)
      ensures match Create(old(records), key, employee, status, hours, actor)
              case Ok(store) => error == None && records == store
              case Err(e) => error == Some(e) && records == old(records)
    {
      if employee == None {
        return Some(UnknownEmployee);
      }
      if !MayAccess(actor, employee.value) {
        return Some(Forbidden);
      }
      if key in records {
        return Some(AlreadyExists);
      }
      var resolved := match status case Some(given) => given case None => Present;
      var overtime := NormalizeHours(resolved, hours);
      var Employee(location, department) := employee.value;
      records := records[key := TimeRecord(resolved, overtime, location, department, None)];
      return None;
    }

    /** Status and overtime change together, to no overtime for an absence; an unnamed one is kept; location,
        department, approval and every other record stay. */
    method UpdateRecord(key: Key, employee: Employee, status: Option<Status>, hours: Option<real>, actor: Actor)
      returns (error: Option<Error>)
      requires Consistent(records)
      modifies this
      ensures Consistent(records) && SameElsewhere(old(records), records, key)
      ensures error == if key !in old(records) then Some(NotFound)
                       else if !IsInReach(actor, employee) then Some(Forbidden) else None
      ensures error == None ==>
                && key in old(records) && key in records
                && records[key].status == (match status case Some(given) => given case None => old(records)[key].status)
                && (records[key].status == Absent ==> records[key].overtime == 0.0)
                && (records[key].status == Present ==>
                      records[key].overtime == match hours case Some(h) => h case None => old(records)[key].overtime)
                && SameBesides(old(records)[key], records[key])
      ensures match Update(old(records), key, employee, status, hours, actor)
              case Ok(store) => error == None && records == store
              case Err(e) => error == Some(e) && records == old(records)
    {
      if key !in records {
        return Some(NotFound);
      }
      if !MayAccess(actor, employee) {
        return Some(Forbidden);
      }
      var record := records[key];
      var resolved := match status case Some(given) => given case None => record.status;
      var given := match hours case Some(h) => h case None => record.overtime;
      var overtime := NormalizeHours(resolved, Some(given));
      records := records[key := record.(status := resolved, overtime := overtime)];
      return None;
    }

    /** The approver is noted, and nothing else changes. */
    method ApproveRecord(key: Key, employee: Employee, actor: Actor, approver: Id) returns (error: Option<Error>)
      requires Consistent(records)
      modifies this
      ensures Consistent(records)
      ensures error == if key !in old(records) then Some(NotFound)
                       else if !IsInReach(actor, employee) then Some(Forbidden) else None
      ensures error == None ==>
                && key in old(records)
                && records == old(records)[key := old(records)[key].(approvedBy := Some(approver))]
      ensures match Approve(old(records), key, employee, actor, approver)
              case Ok(store) => error == None && records == store
              case Err(e) => error == Some(e) && records == old(records)
    {
      if key !in records {
        return Some(NotFound);
      }
      if !MayAccess(actor, employee) {
        return Some(Forbidden);
      }
      records := records[key := records[key].(approvedBy := Some(approver))];
      return None;
    }

    static method CollectErrors(rows: seq<Row>, context: Context) returns (errors: seq<RowError>)
      ensures errors == AllErrors(rows, context)
    {
      errors := [];
      for n := 0 to |rows|
        invariant errors == AllErrors(rows[..n], context)
      {
        assert rows[..n + 1][..n] == rows[..n];
        var reported := Report(n + 1, RowProblems(rows[n], context));
        errors := errors + reported;
      }
      assert rows[..|rows|] == rows;
    }

    static method Report(row: nat, problems: seq<Problem>) returns (errors: seq<RowError>)
      ensures errors == Numbered(row, problems)
    {
      errors := [];
      for k := 0 to |problems|
        invariant errors == Numbered(row, problems[..k])
      {
        assert problems[..k + 1][..k] == problems[..k];
        errors := errors + [RowError(row, problems[k])];
      }
      assert problems[..|problems|] == problems;
    }

    method UpsertRows(rows: seq<Row>, context: Context)
      requires AllGood(rows, context)
      modifies this
      ensures records == UpsertAll(old(records), rows, context)
    {
      for n := 0 to |rows|
        invariant records == UpsertAll(old(records), rows[..n], context)
      {
        assert rows[..n + 1][..n] == rows[..n];
        var row := rows[n];
        var employee := context.employees[row.employee];
        var status := StatusOf(row);
        var overtime := NormalizeHours(status, row.overtime);
        var key := KeyOf(row);
        if key in records {
          records := records[key := records[key].(status := status, overtime := overtime)];
        } else {
          records := records[key := TimeRecord(status, overtime, employee.location, employee.department, None)];
        }
      }
      assert rows[..|rows|] == rows;
    }
  }
}
