/** Closing departments: deactivation requests, archiving when empty, archiving by mass suspension. */
module Departments {
  import opened Wrappers

  type Id = nat

  /** Names are in the normalised form in which they are compared. */
  datatype Department = Department(location: Id, name: string, active: bool)

  datatype EmployeeStatus = Active | Suspended | Other

  datatype Employee = Employee(department: Option<Id>, status: EmployeeStatus, deleted: bool)

  datatype RequestStatus = Pending | Completed | Cancelled

  datatype Request = Request(department: Id, requested: int, remaining: int, status: RequestStatus)

  datatype State = State(
    departments: map<Id, Department>, employees: map<Id, Employee>, requests: map<Id, Request>,
    nextDepartment: Id, nextRequest: Id)

  datatype Actor = Actor(allBranches: bool, location: Option<Id>)

  datatype Error = NotFound | NotManager | NothingPending | NotAllBranches | NameTaken

  predicate CanManage(actor: Actor, location: Id) {
    actor.allBranches || actor.location == Some(location)
  }

  /** Whoever is assigned to the department and not deleted, whatever their status. */
  function AssignedTo(s: State, d: Id): set<Id> {
    set e | e in s.employees && s.employees[e].department == Some(d) && !s.employees[e].deleted
  }

  predicate IsPending(s: State, r: Id, d: Id) {
    r in s.requests && s.requests[r].department == d && s.requests[r].status == Pending
  }

  /** The first pending request below `n` for the department. */
  function FindPending(s: State, d: Id, n: nat): (found: Option<Id>)
    ensures found.Some? ==> found.value < n && IsPending(s, found.value, d)
    ensures found.None? ==> forall r: Id :: r < n ==> !IsPending(s, r, d)
  {
    if n == 0 then None
    else
      var earlier := FindPending(s, d, n - 1);
      if earlier.Some? then earlier else if IsPending(s, n - 1, d) then Some(n - 1) else None
  }

  function PendingOf(s: State, d: Id): Option<Id> {
    FindPending(s, d, s.nextRequest)
  }

  function Refreshed(s: State, r: Id, remaining: int): State
    requires r in s.requests
  {
    s.(requests := s.requests[r := s.requests[r].(remaining := remaining)])
  }

  /** `requestDepartmentDeactivation`: refresh the pending request or open one. */
  function Requested(s: State, d: Id, remaining: int): State {
    var pending := PendingOf(s, d);
    if pending.Some? then Refreshed(s, pending.value, remaining)
    else
      s.(requests := s.requests[s.nextRequest := Request(d, remaining, remaining, Pending)],
         nextRequest := s.nextRequest + 1)
  }

  function Settle(requests: map<Id, Request>, d: Id, status: RequestStatus): map<Id, Request> {
    map r | r in requests ::
      if requests[r].department == d && requests[r].status == Pending
      then requests[r].(status := status, remaining := 0) else requests[r]
  }

  /** `archiveDepartmentNow`. */
  function Archived(s: State, d: Id): State
    requires d in s.departments
  {
    s.(departments := s.departments[d := s.departments[d].(active := false)],
       requests := Settle(s.requests, d, Completed))
  }

  /** `deleteDepartment`. */
  function Delete(s: State, d: Id, actor: Actor): Result<State, Error> {
    if d !in s.departments then Err(NotFound)
    else if !CanManage(actor, s.departments[d].location) then Err(NotManager)
    else if !s.departments[d].active then Ok(s)
    else if |AssignedTo(s, d)| > 0 then Ok(Requested(s, d, |AssignedTo(s, d)|))
    else Ok(Archived(s, d))
  }

  /** `archivePendingDepartmentIfEmpty`, after an employee has left the department. */
  function ArchiveIfEmpty(s: State, d: Id): State {
    var pending := PendingOf(s, d);
    if pending.None? || d !in s.departments then s
    else if |AssignedTo(s, d)| > 0 then Refreshed(s, pending.value, |AssignedTo(s, d)|)
    else Archived(s, d)
  }

  function SuspendAssigned(s: State, d: Id): map<Id, Employee> {
    map e | e in s.employees ::
      if e in AssignedTo(s, d) && s.employees[e].status == Active then s.employees[e].(status := Suspended)
      else s.employees[e]
  }

  /** `suspendAndArchive`. */
  function SuspendAndArchive(s: State, d: Id, actor: Actor): Result<State, Error> {
    if d !in s.departments then Err(NotFound)
    else if !CanManage(actor, s.departments[d].location) then Err(NotManager)
    else
      var pending := PendingOf(s, d);
      if !s.departments[d].active || pending.None? then Err(NothingPending)
      else
        Ok(s.(employees := SuspendAssigned(s, d),
              requests := s.requests[pending.value := s.requests[pending.value].(status := Completed, remaining := 0)],
              departments := s.departments[d := s.departments[d].(active := false)]))
  }

  predicate NameIsTaken(s: State, location: Id, name: string, existing: Option<Id>) {
    exists d | d in s.departments ::
      && s.departments[d].active && s.departments[d].location == location && Some(d) != existing
      && s.departments[d].name == name
  }

  /** `enableAtLocation`; `existing` is the row the lookup by code or name finds there. */
  function Enable(s: State, location: Id, name: string, existing: Option<Id>, actor: Actor): Result<State, Error>
    requires existing.Some? ==> existing.value in s.departments && s.departments[existing.value].location == location
  {
    if !actor.allBranches then Err(NotAllBranches)
    else if existing.Some? && s.departments[existing.value].active then Ok(s)
    else if NameIsTaken(s, location, name, existing) then Err(NameTaken)
    else if existing.Some? then
      var d := existing.value;
      Ok(s.(departments := s.departments[d := s.departments[d].(active := true, name := name)],
            requests := Settle(s.requests, d, Cancelled)))
    else
      Ok(s.(departments := s.departments[s.nextDepartment := Department(location, name, true)],
            nextDepartment := s.nextDepartment + 1,
            requests := Settle(s.requests, s.nextDepartment, Cancelled)))
  }

  // ---------- runs ----------

  datatype Step =
    | DeleteStep(department: Id, actor: Actor)
    | ArchiveStep(department: Id)
    | SuspendStep(department: Id, actor: Actor)
    | EnableStep(location: Id, name: string, existing: Option<Id>, actor: Actor)
    | EmployeeStep(employee: Id, row: Employee)   // hired, moved, suspended, deleted: any change to one employee

  predicate Applies(s: State, step: Step) {
    step.EnableStep? && step.existing.Some? ==>
      step.existing.value in s.departments && s.departments[step.existing.value].location == step.location
  }

  function Kept(s: State, outcome: Result<State, Error>): State {
    match outcome
    case Ok(s') => s'
    case Err(_) => s
  }

  function Next(s: State, step: Step): State {
    if !Applies(s, step) then s
    else
      match step
      case DeleteStep(d, actor) => Kept(s, Delete(s, d, actor))
      case ArchiveStep(d) => ArchiveIfEmpty(s, d)
      case SuspendStep(d, actor) => Kept(s, SuspendAndArchive(s, d, actor))
      case EnableStep(location, name, existing, actor) => Kept(s, Enable(s, location, name, existing, actor))
      case EmployeeStep(e, row) => s.(employees := s.employees[e := row])
  }

  function Run(s: State, steps: seq<Step>): State {
    if steps == [] then s else Next(Run(s, steps[..|steps| - 1]), steps[|steps| - 1])
  }

  // ---------- what every run keeps ----------

  ghost predicate Numbered(s: State) {
    && (forall d :: d in s.departments ==> d < s.nextDepartment)
    && (forall r :: r in s.requests ==> r < s.nextRequest && s.requests[r].department in s.departments)
  }

  /** At most one pending request for a department, and only for an active one. */
  ghost predicate OnePending(s: State) {
    && (forall q, r, d :: IsPending(s, q, d) && IsPending(s, r, d) ==> q == r)
    && (forall r, d :: IsPending(s, r, d) ==> d in s.departments && s.departments[d].active)
  }

  predicate RequestIsCoherent(request: Request) {
    match request.status
    case Pending => request.remaining > 0 && request.requested > 0
    case Completed => request.remaining == 0 && request.requested > 0
    case Cancelled => false
  }

  /** A pending request has employees left, a completed one has none, and none is ever cancelled. */
  ghost predicate RequestsCoherent(s: State) {
    forall r :: r in s.requests ==> RequestIsCoherent(s.requests[r])
  }

  predicate IsActive(s: State, d: Id) {
    d in s.departments && s.departments[d].active
  }

  /** No two active departments of a location share a name. */
  ghost predicate UniqueNames(s: State) {
    forall c, d | IsActive(s, c) && IsActive(s, d) && c != d ::
      s.departments[c].location == s.departments[d].location ==> s.departments[c].name != s.departments[d].name
  }

  ghost predicate Inv(s: State) {
    Numbered(s) && OnePending(s) && RequestsCoherent(s) && UniqueNames(s)
  }

  lemma NonePending(s: State, d: Id)
    requires Numbered(s) && PendingOf(s, d) == None
    ensures forall r :: !IsPending(s, r, d)
  {
  }

  /** The lookup finds the department's one pending request, if there is one. */
  lemma PendingIsFound(s: State, d: Id)
    requires Numbered(s) && OnePending(s)
    ensures PendingOf(s, d).Some? <==>
              exists r :: r in s.requests && s.requests[r].department == d && s.requests[r].status == Pending
    ensures forall r :: r in s.requests && s.requests[r].department == d && s.requests[r].status == Pending ==>
              PendingOf(s, d) == Some(r)
  {
    forall r | r in s.requests && s.requests[r].department == d && s.requests[r].status == Pending
      ensures PendingOf(s, d) == Some(r)
    {
      assert IsPending(s, r, d);
    }
  }

  lemma RequestedKeepsInv(s: State, d: Id, remaining: int)
    requires Inv(s) && d in s.departments && s.departments[d].active && remaining > 0
    ensures Inv(Requested(s, d, remaining))
  {
    if PendingOf(s, d).Some? {
      RefreshedKeepsInv(s, PendingOf(s, d).value, remaining);
    } else {
      NonePending(s, d);
      forall r, e
        ensures IsPending(Requested(s, d, remaining), r, e) <==> IsPending(s, r, e) || (r == s.nextRequest && e == d)
      {
      }
    }
  }

  lemma ArchivedKeepsInv(s: State, d: Id)
    requires Inv(s) && d in s.departments
    ensures Inv(Archived(s, d))
  {
    forall r, e ensures IsPending(Archived(s, d), r, e) <==> IsPending(s, r, e) && e != d {
    }
  }

  lemma ArchivedLeavesPending(s: State, d: Id)
    requires d in s.departments
    ensures forall r, e :: IsPending(Archived(s, d), r, e) <==> e != d && IsPending(s, r, e)
  {
  }

  lemma SuspendKeepsInv(s: State, d: Id, actor: Actor)
    requires Inv(s) && SuspendAndArchive(s, d, actor).Ok?
    ensures Inv(SuspendAndArchive(s, d, actor).value)
  {
    assert IsPending(s, PendingOf(s, d).value, d);
    forall r, e ensures IsPending(SuspendAndArchive(s, d, actor).value, r, e) <==> IsPending(s, r, e) && e != d {
      assert IsPending(s, r, e) && e == d ==> r == PendingOf(s, d).value;
    }
  }

  /** Re-enabling finds nothing to cancel: only active departments have pending requests. */
  lemma NothingToCancel(s: State, d: Id)
    requires Inv(s) && (d !in s.departments || !s.departments[d].active)
    ensures Settle(s.requests, d, Cancelled) == s.requests
  {
    forall r | r in s.requests ensures !IsPending(s, r, d) {
    }
  }

  lemma EnableKeepsInv(s: State, location: Id, name: string, existing: Option<Id>, actor: Actor)
    requires Inv(s)
    requires existing.Some? ==> existing.value in s.departments && s.departments[existing.value].location == location
    requires Enable(s, location, name, existing, actor).Ok?
    ensures Inv(Enable(s, location, name, existing, actor).value)
  {
    var s' := Enable(s, location, name, existing, actor).value;
    if s' != s {
      NothingToCancel(s, if existing.Some? then existing.value else s.nextDepartment);
      assert forall d | d in s.departments && Some(d) != existing && IsActive(s, d) ::
          s.departments[d].location == location ==> s.departments[d].name != name;
      forall r, e ensures IsPending(s', r, e) <==> IsPending(s, r, e) {
      }
    }
  }

  lemma EmployeesKeepInv(s: State, employees: map<Id, Employee>)
    requires Inv(s)
    ensures Inv(s.(employees := employees))
  {
    forall r, e ensures IsPending(s.(employees := employees), r, e) <==> IsPending(s, r, e) {
    }
  }

  lemma RefreshedKeepsInv(s: State, r: Id, remaining: int)
    requires Inv(s) && r in s.requests && s.requests[r].status == Pending && remaining > 0
    ensures Inv(Refreshed(s, r, remaining))
  {
    forall q, e ensures IsPending(Refreshed(s, r, remaining), q, e) <==> IsPending(s, q, e) {
    }
  }

  lemma StepKeepsInv(s: State, step: Step)
    requires Inv(s)
    ensures Inv(Next(s, step))
  {
    if Applies(s, step) {
      match step
      case DeleteStep(d, actor) =>
        if Delete(s, d, actor).Ok? && s.departments[d].active {
          if |AssignedTo(s, d)| > 0 { RequestedKeepsInv(s, d, |AssignedTo(s, d)|); } else { ArchivedKeepsInv(s, d); }
        }
      case ArchiveStep(d) =>
        if PendingOf(s, d).Some? && d in s.departments {
          if |AssignedTo(s, d)| > 0 { RefreshedKeepsInv(s, PendingOf(s, d).value, |AssignedTo(s, d)|); }
          else { ArchivedKeepsInv(s, d); }
        }
      case SuspendStep(d, actor) => if SuspendAndArchive(s, d, actor).Ok? { SuspendKeepsInv(s, d, actor); }
      case EnableStep(location, name, existing, actor) =>
        if Enable(s, location, name, existing, actor).Ok? { EnableKeepsInv(s, location, name, existing, actor); }
      case EmployeeStep(e, row) => EmployeesKeepInv(s, s.employees[e := row]);
    }
  }

  lemma {:induction false} RunsKeepInv(s: State, steps: seq<Step>)
    requires Inv(s)
    ensures Inv(Run(s, steps))
    ensures forall r :: r in Run(s, steps).requests ==> Run(s, steps).requests[r].status != Cancelled
  {
    if steps != [] {
      var before := Run(s, steps[..|steps| - 1]);
      RunsKeepInv(s, steps[..|steps| - 1]);
      StepKeepsInv(before, steps[|steps| - 1]);
    }
    forall r | r in Run(s, steps).requests ensures Run(s, steps).requests[r].status != Cancelled {
      assert RequestIsCoherent(Run(s, steps).requests[r]);
    }
  }

  /** A department is archived only when nobody is assigned to it or by suspending everyone who is, and no
      request for it is left pending. */
  lemma ArchivedOnlyEmptyOrSuspended(s: State, steps: seq<Step>, step: Step, d: Id)
    requires Inv(s) && IsActive(Run(s, steps), d) && !IsActive(Next(Run(s, steps), step), d)
    ensures var before, after := Run(s, steps), Next(Run(s, steps), step);
            && (forall r :: !IsPending(after, r, d))
            && (if step.SuspendStep? then
                  step.department == d && ActiveAreNotIn(after, d)
                else NobodyIsIn(before, d))
  {
    RunsKeepInv(s, steps);
    ClosingEmptiesOrSuspends(Run(s, steps), step, d);
  }

  lemma ClosingEmptiesOrSuspends(s: State, step: Step, d: Id)
    requires Inv(s) && IsActive(s, d) && !IsActive(Next(s, step), d)
    ensures forall r :: !IsPending(Next(s, step), r, d)
    ensures step.SuspendStep? ==> step.department == d && ActiveAreNotIn(Next(s, step), d)
    ensures !step.SuspendStep? ==> NobodyIsIn(s, d)
  {
    StepKeepsInv(s, step);
    if !step.SuspendStep? {
      assert |AssignedTo(s, d)| == 0;
      NobodyAssigned(s, d);
    }
  }

  ghost predicate ActiveAreNotIn(s: State, d: Id) {
    forall e :: e in s.employees && s.employees[e].department == Some(d) && !s.employees[e].deleted ==>
      s.employees[e].status != Active
  }

  ghost predicate NobodyIsIn(s: State, d: Id) {
    forall e :: e in s.employees && !s.employees[e].deleted ==> s.employees[e].department != Some(d)
  }

  lemma NobodyAssigned(s: State, d: Id)
    ensures |AssignedTo(s, d)| == 0 <==> NobodyIsIn(s, d)
  {
    if |AssignedTo(s, d)| == 0 {
      forall e | e in s.employees && !s.employees[e].deleted ensures s.employees[e].department != Some(d) {
        assert e !in AssignedTo(s, d);
      }
    }
    if NobodyIsIn(s, d) {
      assert AssignedTo(s, d) == {};
    }
  }

  /** A settled request stays as it is. */
  lemma {:induction false} SettledIsFinal(s: State, steps: seq<Step>, r: Id)
    requires Inv(s) && r in s.requests && s.requests[r].status != Pending
    ensures r in Run(s, steps).requests && Run(s, steps).requests[r] == s.requests[r]
  {
    if steps != [] {
      var front := steps[..|steps| - 1];
      SettledIsFinal(s, front, r);
      RunsKeepInv(s, front);
      SettledStays(Run(s, front), steps[|steps| - 1], r);
    }
  }

  lemma SettledStays(s: State, step: Step, r: Id)
    requires Inv(s) && r in s.requests && s.requests[r].status != Pending
    ensures r in Next(s, step).requests && Next(s, step).requests[r] == s.requests[r]
  {
  }

  // ---------- the service ----------

  class DepartmentService {
    var departments: map<Id, Department>
    var employees: map<Id, Employee>
    var requests: map<Id, Request>
    var nextDepartment: Id
    var nextRequest: Id

    ghost function Rows(): State
      reads this
    {
      State(departments, employees, requests, nextDepartment, nextRequest)
    }

    constructor ()
      ensures Inv(Rows())
    {
      departments, employees, requests := map[], map[], map[];
      nextDepartment, nextRequest := 1, 1;
    }

    method FindFirstPending(d: Id) returns (found: Option<Id>)
      ensures found == PendingOf(Rows(), d)
    {
      for r := 0 to nextRequest
        invariant FindPending(Rows(), d, r) == None
      {
        if r in requests && requests[r].department == d && requests[r].status == Pending {
          FoundStays(Rows(), d, r + 1, nextRequest);
          return Some(r);
        }
      }
      return None;
    }

    method CountAssignedEmployees(d: Id) returns (count: nat)
      ensures count == |AssignedTo(Rows(), d)|
    {
      var staff := set e | e in employees && employees[e].department == Some(d) && !employees[e].deleted;
      assert staff == AssignedTo(Rows(), d);
      return |staff|;
    }

    /** Afterwards the department is archived with nothing pending, or still active with one pending request
        that counts everyone assigned. */
    method DeleteDepartment(d: Id, actor: Actor) returns (error: Option<Error>)
      requires Inv(Rows())
      modifies this
      ensures Inv(Rows())
      ensures error == (if d !in old(departments) then Some(NotFound)
                        else if actor.allBranches || actor.location == Some(old(departments)[d].location) then None
                        else Some(NotManager))
      ensures error == None ==> d in departments && IsWoundDown(Rows(), d)
      ensures employees == old(employees) && departments.Keys == old(departments).Keys
      ensures forall c :: c in departments && c != d ==> departments[c] == old(departments)[c]
      ensures forall r :: r in old(requests) && old(requests)[r].department != d ==>
                r in requests && requests[r] == old(requests)[r]
      ensures match Delete(old(Rows()), d, actor)
              case Ok(s) => error == None && Rows() == s
              case Err(e) => error == Some(e) && Rows() == old(Rows())
    {
      if d !in departments {
        return Some(NotFound);
      }
      if !CanManage(actor, departments[d].location) {
        return Some(NotManager);
      }
      if !departments[d].active {
        return None;
      }
      var remaining := CountAssignedEmployees(d);
      if remaining > 0 {
        RequestDeactivation(d, remaining);
      } else {
        ArchiveNow(d);
      }
      return None;
    }

    /** The department has exactly one pending request, and it counts what remains. */
    method RequestDeactivation(d: Id, remaining: int)
      requires Inv(Rows()) && IsActive(Rows(), d) && remaining > 0
      modifies this`requests, this`nextRequest
      ensures Inv(Rows()) && Rows() == Requested(old(Rows()), d, remaining)
      ensures HasPending(Rows(), d, remaining)
      ensures (forall r :: r in old(requests) ==>
                 !(old(requests)[r].department == d && old(requests)[r].status == Pending))
              ==> requests == old(requests)[old(nextRequest) := Request(d, remaining, remaining, Pending)]
      ensures forall r :: r in old(requests) ==>
                && r in requests
                && requests[r] == if old(requests)[r].department == d && old(requests)[r].status == Pending
                                  then old(requests)[r].(remaining := remaining) else old(requests)[r]
    {
      RequestedKeepsInv(Rows(), d, remaining);
      PendingIsFound(Rows(), d);
      var existing := FindFirstPending(d);
      if existing.Some? {
        requests := requests[existing.value := requests[existing.value].(remaining := remaining)];
        assert IsPending(Rows(), existing.value, d);
      } else {
        requests := requests[nextRequest := Request(d, remaining, remaining, Pending)];
        nextRequest := nextRequest + 1;
        assert IsPending(Rows(), nextRequest - 1, d);
      }
    }

    /** The department is archived and its requests are settled; every other request is as pending as before. */
    method ArchiveNow(d: Id)
      requires Inv(Rows()) && d in departments
      modifies this`departments, this`requests
      ensures Inv(Rows()) && Rows() == Archived(old(Rows()), d)
      ensures departments == old(departments)[d := old(departments)[d].(active := false)]
      ensures requests.Keys == old(requests).Keys
      ensures forall r :: r in requests ==>
                requests[r] == if old(requests)[r].department == d && old(requests)[r].status == Pending
                               then old(requests)[r].(status := Completed, remaining := 0) else old(requests)[r]
      ensures forall r, e :: IsPending(Rows(), r, e) <==> e != d && old(IsPending(Rows(), r, e))
    {
      ArchivedKeepsInv(Rows(), d);
      ArchivedLeavesPending(Rows(), d);
      if departments[d].active {
        departments := departments[d := departments[d].(active := false)];
      } else {
        assert departments == departments[d := departments[d].(active := false)];
      }
      requests := map r | r in requests ::
        if requests[r].department == d && requests[r].status == Pending
        then requests[r].(status := Completed, remaining := 0) else requests[r];
    }

    method ArchivePendingDepartmentIfEmpty(d: Id) returns (archived: bool)
      requires Inv(Rows()) && d in departments
      modifies this
      ensures Inv(Rows()) && Rows() == ArchiveIfEmpty(old(Rows()), d)
      ensures archived <==>
                && (exists r :: r in old(requests)
                                && old(requests)[r].department == d && old(requests)[r].status == Pending)
                && NobodyIsIn(old(Rows()), d)
      ensures archived ==> !IsActive(Rows(), d)
    {
      StepKeepsInv(Rows(), ArchiveStep(d));
      PendingIsFound(Rows(), d);
      NobodyAssigned(Rows(), d);
      var pending := FindFirstPending(d);
      if pending.None? {
        return false;
      }
      var remaining := CountAssignedEmployees(d);
      if remaining > 0 {
        requests := requests[pending.value := requests[pending.value].(remaining := remaining)];
        return false;
      }
      ArchiveNow(d);
      return true;
    }

    /** The department is archived, with nobody active left in it and nothing pending. */
    method CloseBySuspension(d: Id, actor: Actor) returns (error: Option<Error>, suspended: set<Id>)
      requires Inv(Rows())
      modifies this
      ensures Inv(Rows())
      ensures match SuspendAndArchive(old(Rows()), d, actor)
              case Ok(s) => error == None && Rows() == s
              case Err(e) => error == Some(e) && Rows() == old(Rows())
      ensures error == None <==>
                && d in old(departments) && (actor.allBranches || actor.location == Some(old(departments)[d].location))
                && old(departments)[d].active
                && exists r :: r in old(requests)
                               && old(requests)[r].department == d && old(requests)[r].status == Pending
      ensures error == None ==>
                && suspended == (set e | e in old(employees) && old(employees)[e].department == Some(d)
                                         && old(employees)[e].status == Active && !old(employees)[e].deleted)
                && employees == (map e | e in old(employees) ::
                                   if e in suspended then old(employees)[e].(status := Suspended)
                                   else old(employees)[e])
                && departments == old(departments)[d := old(departments)[d].(active := false)]
    {
      suspended := {};
      if d !in departments {
        return Some(NotFound), suspended;
      }
      if !CanManage(actor, departments[d].location) {
        return Some(NotManager), suspended;
      }
      var pending := FindFirstPending(d);
      PendingIsFound(Rows(), d);
      if !departments[d].active || pending.None? {
        return Some(NothingPending), suspended;
      }
      SuspendKeepsInv(Rows(), d, actor);
      suspended := SuspendStaff(d);
      requests := requests[pending.value := requests[pending.value].(status := Completed, remaining := 0)];
      departments := departments[d := departments[d].(active := false)];
      return None, suspended;
    }

    method SuspendStaff(d: Id) returns (suspended: set<Id>)
      modifies this`employees
      ensures employees == SuspendAssigned(old(Rows()), d)
      ensures suspended == set e | e in AssignedTo(old(Rows()), d) && old(employees)[e].status == Active
    {
      suspended := set e | e in employees && employees[e].department == Some(d) && employees[e].status == Active
                           && !employees[e].deleted;
      employees := map e | e in employees ::
        if e in suspended then employees[e].(status := Suspended) else employees[e];
    }

    /** The row found was active and stays as it is; or the location now has an active department of the name,
        no request is touched, and a name in use there was refused. */
    method EnableAtLocation(location: Id, name: string, existing: Option<Id>, actor: Actor)
      returns (error: Option<Error>)
      requires Inv(Rows())
      requires existing.Some? ==> existing.value in departments && departments[existing.value].location == location
      modifies this
      ensures Inv(Rows()) && requests == old(requests)
      ensures error == None ==>
                && (existing.Some? ==> IsActive(Rows(), existing.value))
                && (existing.None? || !old(IsActive(Rows(), existing.value)) ==>
                  NameIsTaken(Rows(), location, name, None))
      ensures error == Some(NameTaken) <==>
                && actor.allBranches && (existing.None? || !old(departments)[existing.value].active)
                && exists d :: d in old(departments) && Some(d) != existing && old(departments)[d].active
                               && old(departments)[d].location == location && old(departments)[d].name == name
      ensures error == Some(NotAllBranches) <==> !actor.allBranches
      ensures error == None && (existing.None? || !old(departments)[existing.value].active) ==>
                var d := if existing.Some? then existing.value else old(nextDepartment);
                departments == old(departments)[d := Department(location, name, true)]
      ensures error != None || (existing.Some? && old(departments)[existing.value].active) ==>
                departments == old(departments)
      ensures match Enable(old(Rows()), location, name, existing, actor)
              case Ok(s) => error == None && Rows() == s
              case Err(e) => error == Some(e) && Rows() == old(Rows())
    {
      EnableOutcome(Rows(), location, name, existing, actor);
      error := EnableRow(location, name, existing, actor);
    }

    method EnableRow(location: Id, name: string, existing: Option<Id>, actor: Actor) returns (error: Option<Error>)
      requires existing.Some? ==> existing.value in departments && departments[existing.value].location == location
      modifies this
      ensures match Enable(old(Rows()), location, name, existing, actor)
              case Ok(s) => error == None && Rows() == s
              case Err(e) => error == Some(e) && Rows() == old(Rows())
    {
      if !actor.allBranches {
        return Some(NotAllBranches);
      }
      if existing.Some? && departments[existing.value].active {
        return None;
      }
      if exists d | d in departments :: departments[d].active && departments[d].location == location
                                        && Some(d) != existing && departments[d].name == name {
        return Some(NameTaken);
      }
      var d: Id;
      if existing.Some? {
        d := existing.value;
        departments := departments[d := departments[d].(active := true, name := name)];
      } else {
        d := nextDepartment;
        departments := departments[d := Department(location, name, true)];
        nextDepartment := nextDepartment + 1;
      }
      requests := map r | r in requests ::
        if requests[r].department == d && requests[r].status == Pending
        then requests[r].(status := Cancelled, remaining := 0) else requests[r];
      return None;
    }
  }

  ghost predicate HasPending(s: State, d: Id, remaining: int) {
    exists r :: IsPending(s, r, d) && s.requests[r].remaining == remaining
  }

  /** Archived with nothing pending, or active and waiting for exactly those assigned to leave. */
  ghost predicate IsWoundDown(s: State, d: Id) {
    if IsActive(s, d) then |AssignedTo(s, d)| > 0 && HasPending(s, d, |AssignedTo(s, d)|)
    else forall r :: !IsPending(s, r, d)
  }

  lemma EnableOutcome(s: State, location: Id, name: string, existing: Option<Id>, actor: Actor)
    requires Inv(s)
    requires existing.Some? ==> existing.value in s.departments && s.departments[existing.value].location == location
    ensures match Enable(s, location, name, existing, actor)
            case Ok(s') =>
              && Inv(s') && s'.requests == s.requests
              && (existing.Some? ==> IsActive(s', existing.value))
              && (existing.None? || !IsActive(s, existing.value) ==> NameIsTaken(s', location, name, None))
            case Err(_) => true
  {
    var outcome := Enable(s, location, name, existing, actor);
    if outcome.Ok? {
      EnableKeepsInv(s, location, name, existing, actor);
      var d := if existing.Some? then existing.value else s.nextDepartment;
      if existing.None? || !IsActive(s, d) {
        NothingToCancel(s, d);
        assert d in outcome.value.departments && outcome.value.departments[d] == Department(location, name, true);
      }
    }
  }

  lemma {:induction false} FoundStays(s: State, d: Id, n: nat, m: nat)
    requires n <= m && FindPending(s, d, n).Some?
    ensures FindPending(s, d, m) == FindPending(s, d, n)
  {
    if n < m {
      FoundStays(s, d, n, m - 1);
    }
  }
}
