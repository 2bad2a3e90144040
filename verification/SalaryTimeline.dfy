/** An employee's salary structures over time, and the structure that payroll picks for a period. */
module SalaryTimeline {
  import opened Wrappers

  type Id = nat

  /** In effect from one day, to a day or still open. */
  datatype Structure = Structure(id: Id, employee: Id, from: int, to: Option<int>)

  /** The rows of one employee, oldest first. */
  function Of(table: seq<Structure>, employee: Id): (rows: seq<Structure>)
    ensures forall k :: 0 <= k < |rows| ==> rows[k].employee == employee
  {
    if table == [] then []
    else
      var last := table[|table| - 1];
      Of(table[..|table| - 1], employee) + if last.employee == employee then [last] else []
  }

  /** The overlap test of `create`. */
  predicate Overlaps(row: Structure, from: int) {
    || (row.to.Some? && row.from <= from && row.to.value >= from)
    || (row.to.None? && row.from > from)
  }

  predicate SomeOverlap(rows: seq<Structure>, from: int) {
    exists k | 0 <= k < |rows| :: Overlaps(rows[k], from)
  }

  function CloseRow(row: Structure, at: int): Structure {
    if row.to.None? then row.(to := Some(at)) else row
  }

  /** Every open row closed at the day. */
  function CloseOpen(rows: seq<Structure>, at: int): (closed: seq<Structure>)
    ensures |closed| == |rows|
    ensures forall k :: 0 <= k < |rows| ==> closed[k] == CloseRow(rows[k], at)
  {
    if rows == [] then [] else CloseOpen(rows[..|rows| - 1], at) + [CloseRow(rows[|rows| - 1], at)]
  }

  /** What an accepted `create` leaves of the employee's rows. */
  function Extended(rows: seq<Structure>, added: Structure): seq<Structure> {
    CloseOpen(rows, added.from) + [added]
  }

  // ---------- the chain ----------

  /** Each row ends where the next begins, only the last is open, and the starts increase; only the second
      row may start with the first. */
  ghost predicate Chain(rows: seq<Structure>) {
    && (forall k :: 0 <= k < |rows| - 1 ==> rows[k].to == Some(rows[k + 1].from))
    && (rows != [] ==> rows[|rows| - 1].to == None)
    && (|rows| > 1 ==> rows[0].from <= rows[1].from)
    && (forall j, k :: 1 <= j < k < |rows| ==> rows[j].from < rows[k].from)
  }

  /** The overlap test accepts a start exactly when it is after the open row's, or the same while that row
      is the only one. */
  lemma AcceptedIff(rows: seq<Structure>, from: int)
    requires Chain(rows)
    ensures !SomeOverlap(rows, from) <==>
            || rows == []
            || from > rows[|rows| - 1].from
            || (|rows| == 1 && from == rows[0].from)
  {
    if rows != [] {
      var last := |rows| - 1;
      if from < rows[last].from {
        assert Overlaps(rows[last], from);
      } else if from == rows[last].from && last > 0 {
        assert last - 1 >= 1 ==> rows[last - 1].from < rows[last].from;
        assert Overlaps(rows[last - 1], from);
      }
      forall k | 0 <= k < last && from > rows[last].from ensures !Overlaps(rows[k], from) {
        assert k + 1 < last ==> rows[k + 1].from < rows[last].from;
      }
    }
  }

  lemma ExtendKeepsChain(rows: seq<Structure>, added: Structure)
    requires Chain(rows) && !SomeOverlap(rows, added.from) && added.to == None
    ensures Chain(Extended(rows, added))
  {
    AcceptedIff(rows, added.from);
    if |rows| > 1 {
      assert forall j :: 1 <= j < |rows| - 1 ==> rows[j].from < rows[|rows| - 1].from;
    }
  }

  // ---------- payroll's lookup ----------

  /** In force on a day: started, and not yet ended by the next structure. */
  predicate InForce(row: Structure, day: int) {
    row.from <= day && (row.to.None? || day < row.to.value)
  }

  predicate Candidate(row: Structure, start: int, end: int) {
    row.from <= end && (row.to.None? || row.to.value >= start)
  }

  /** Row `k` is one the lookup may return: a candidate with the latest start. */
  ghost predicate MayReturn(rows: seq<Structure>, start: int, end: int, k: int) {
    && 0 <= k < |rows| && Candidate(rows[k], start, end)
    && forall j :: 0 <= j < |rows| && Candidate(rows[j], start, end) ==> rows[j].from <= rows[k].from
  }

  lemma StartsIncrease(rows: seq<Structure>, j: int, k: int)
    requires Chain(rows) && 0 <= j < k < |rows|
    ensures rows[j].from < rows[k].from || (j == 0 && k == 1 && rows[j].from == rows[k].from)
  {
    assert k > 1 ==> rows[1].from < rows[k].from || k == 1;
  }

  /** Exactly one structure is in force on each day from the first start on, and none before. */
  lemma OneInForce(rows: seq<Structure>, day: int) returns (n: int)
    requires Chain(rows)
    ensures rows == [] || day < rows[0].from <==> n == -1
    ensures -1 <= n < |rows| && forall k :: 0 <= k < |rows| ==> (InForce(rows[k], day) <==> k == n)
    ensures forall k :: n < k < |rows| ==> day < rows[k].from
  {
    n := |rows| - 1;
    while n >= 0 && day < rows[n].from
      invariant -1 <= n < |rows|
      invariant forall k :: n < k < |rows| ==> day < rows[k].from
    {
      n := n - 1;
    }
    if n != -1 {
      assert n + 1 < |rows| ==> rows[n].to == Some(rows[n + 1].from) && day < rows[n + 1].from;
      assert InForce(rows[n], day);
      forall k | 0 <= k < n ensures !InForce(rows[k], day) {
        assert rows[k].to == Some(rows[k + 1].from);
        if k + 1 < n {
          StartsIncrease(rows, k + 1, n);
        }
      }
      if n > 0 {
        StartsIncrease(rows, 0, n);
      }
    }
  }

  /** The first two rows start together and the period sees the first. */
  predicate FirstTwoTied(rows: seq<Structure>, start: int, end: int) {
    |rows| > 1 && rows[0].from == rows[1].from && start <= rows[0].from && InForce(rows[1], end)
  }

  /** Every row the lookup may return is the one in force at the period's end, exactly unless the first two
      rows start together within the period and the second is in force at its end. */
  lemma LookupFindsInForceIff(rows: seq<Structure>, start: int, end: int)
    requires Chain(rows) && start <= end
    ensures (forall k :: MayReturn(rows, start, end, k) ==> InForce(rows[k], end)) <==> !FirstTwoTied(rows, start, end)
  {
    var n := OneInForce(rows, end);
    if FirstTwoTied(rows, start, end) {
      assert n == 1;
      assert MayReturn(rows, start, end, 0) && !InForce(rows[0], end);
    } else {
      forall k | MayReturn(rows, start, end, k) ensures InForce(rows[k], end) {
        LatestIsInForce(rows, start, end, k);
      }
    }
  }

  lemma LatestIsInForce(rows: seq<Structure>, start: int, end: int, k: int)
    requires Chain(rows) && start <= end && !FirstTwoTied(rows, start, end) && MayReturn(rows, start, end, k)
    ensures InForce(rows[k], end)
  {
    var n := OneInForce(rows, end);
    assert k <= n;
    assert Candidate(rows[n], start, end);
    if k < n {
      StartsIncrease(rows, k, n);
    }
  }

  /** The lookup finds nothing exactly when the period ends before the first structure. */
  lemma LookupFindsSomeIff(rows: seq<Structure>, start: int, end: int)
    requires Chain(rows) && start <= end
    ensures (exists k :: MayReturn(rows, start, end, k)) <==> rows != [] && rows[0].from <= end
  {
    var n := OneInForce(rows, end);
    if n != -1 {
      forall j | 0 <= j < |rows| ensures rows[j].from <= rows[n].from || end < rows[j].from {
        if j < n {
          StartsIncrease(rows, j, n);
        }
      }
      assert MayReturn(rows, start, end, n);
    }
  }

  // ---------- runs of create ----------

  /** Requests to create, each for one employee from one day. */
  datatype Request = Request(employee: Id, from: int)

  /** `create`: a start that overlaps leaves the table as it is; otherwise the employee's open rows are closed
      and an open one is added. */
  function Created(table: seq<Structure>, req: Request): (r: Option<seq<Structure>>) {
    if SomeOverlap(Of(table, req.employee), req.from) then None
    else Some(CloseOpenOf(table, req.employee, req.from) + [Structure(|table|, req.employee, req.from, None)])
  }

  function CloseOpenOf(table: seq<Structure>, employee: Id, at: int): (closed: seq<Structure>)
    ensures |closed| == |table|
    ensures forall k :: 0 <= k < |table| ==>
              closed[k] == if table[k].employee == employee then CloseRow(table[k], at) else table[k]
  {
    if table == [] then []
    else
      var last := table[|table| - 1];
      CloseOpenOf(table[..|table| - 1], employee, at)
        + [if last.employee == employee then CloseRow(last, at) else last]
  }

  lemma {:induction false} OfClosed(table: seq<Structure>, employee: Id, at: int, e: Id)
    ensures Of(CloseOpenOf(table, employee, at), e) ==
            if e == employee then CloseOpen(Of(table, e), at) else Of(table, e)
  {
    if table != [] {
      var front, last := table[..|table| - 1], table[|table| - 1];
      OfClosed(front, employee, at, e);
      assert CloseOpenOf(table, employee, at)[..|front|] == CloseOpenOf(front, employee, at);
      if last.employee == e {
        var rows := Of(front, e);
        assert (rows + [last])[..|rows|] == rows;
      }
    }
  }

  lemma OfAppended(table: seq<Structure>, row: Structure, e: Id)
    ensures Of(table + [row], e) == Of(table, e) + if row.employee == e then [row] else []
  {
    assert (table + [row])[..|table|] == table;
  }

  /** Creating extends the one employee's rows and leaves every other employee's alone. */
  lemma CreateExtendsOne(table: seq<Structure>, req: Request, e: Id)
    requires Created(table, req).Some?
    ensures Of(Created(table, req).value, e) ==
            if e == req.employee then Extended(Of(table, e), Structure(|table|, e, req.from, None)) else Of(table, e)
  {
    OfClosed(table, req.employee, req.from, e);
    OfAppended(CloseOpenOf(table, req.employee, req.from), Structure(|table|, req.employee, req.from, None), e);
  }

  function Run(requests: seq<Request>): seq<Structure> {
    if requests == [] then []
    else
      var before := Run(requests[..|requests| - 1]);
      match Created(before, requests[|requests| - 1])
      case Some(table) => table
      case None => before
  }

  /** However creations for many employees interleave, each employee's rows form a chain. */
  lemma {:induction false} RunsKeepChains(requests: seq<Request>, e: Id)
    ensures Chain(Of(Run(requests), e))
  {
    if requests != [] {
      var front, req := requests[..|requests| - 1], requests[|requests| - 1];
      RunsKeepChains(front, e);
      if Created(Run(front), req).Some? {
        CreateExtendsOne(Run(front), req, e);
        if e == req.employee {
          ExtendKeepsChain(Of(Run(front), e), Structure(|Run(front)|, e, req.from, None));
        }
      }
    }
  }

  /** After any run, payroll picks the structure in force at the period's end, but for the one tie. */
  lemma PayrollPicksInForceIff(requests: seq<Request>, e: Id, start: int, end: int)
    requires start <= end
    ensures var rows := Of(Run(requests), e);
            (forall k :: MayReturn(rows, start, end, k) ==> InForce(rows[k], end)) <==> !FirstTwoTied(rows, start, end)
  {
    RunsKeepChains(requests, e);
    LookupFindsInForceIff(Of(Run(requests), e), start, end);
  }

  ghost predicate AllChains(table: seq<Structure>) {
    forall e :: Chain(Of(table, e))
  }

  /** The last row, and only that one, is in force on every day from `from` on. */
  ghost predicate InForceFrom(rows: seq<Structure>, from: int) {
    rows != [] && forall day, k :: from <= day && 0 <= k < |rows| ==> (InForce(rows[k], day) <==> k == |rows| - 1)
  }

  lemma CreateKeepsChains(table: seq<Structure>, req: Request)
    requires AllChains(table)
    ensures match Created(table, req)
            case Some(table') => AllChains(table') && InForceFrom(Of(table', req.employee), req.from)
            case None => true
  {
    if Created(table, req).Some? {
      var table' := Created(table, req).value;
      var added := Structure(|table|, req.employee, req.from, None);
      forall e ensures Chain(Of(table', e)) {
        CreateExtendsOne(table, req, e);
        if e == req.employee {
          ExtendKeepsChain(Of(table, e), added);
        }
      }
      CreateExtendsOne(table, req, req.employee);
      LastIsInForce(Of(table', req.employee), req.from);
    }
  }

  lemma LastIsInForce(rows: seq<Structure>, from: int)
    requires Chain(rows) && rows != [] && rows[|rows| - 1].from == from
    ensures InForceFrom(rows, from)
  {
    forall day, k | from <= day && 0 <= k < |rows| ensures InForce(rows[k], day) <==> k == |rows| - 1 {
      var n := OneInForce(rows, day);
      assert n == |rows| - 1;
    }
  }

  /** A row in effect from `first` on lets a structure start at `from`: still open, it has started by then; closed,
      it has ended before or starts after. */
  predicate Admits(first: int, to: Option<int>, from: int) {
    match to
    case None => first <= from
    case Some(last) => last < from || from < first
  }

  /** The overlap test over an employee's rows is one over the table. */
  lemma {:induction false} OverlapsAmong(table: seq<Structure>, employee: Id, from: int)
    ensures SomeOverlap(Of(table, employee), from) <==>
            exists k :: 0 <= k < |table| && table[k].employee == employee && !Admits(table[k].from, table[k].to, from)
  {
    if table != [] {
      var front, last := table[..|table| - 1], table[|table| - 1];
      OverlapsAmong(front, employee, from);
      assert Of(front, employee) + [] == Of(front, employee);
      OverlapStep(Of(front, employee), last, from);
    }
  }

  class PaymentStructures {
    var table: seq<Structure>

    constructor ()
      ensures table == [] && AllChains(table)
    {
      table := [];
    }

    /** Accepted, the structure is the employee's one in force from its start on; refused, nothing changes. */
    method Create(employee: Id, from: int) returns (accepted: bool)
      requires AllChains(table)
      modifies this
      ensures AllChains(table)
      ensures accepted <==> forall k :: 0 <= k < |old(table)| && old(table)[k].employee == employee ==>
                              Admits(old(table)[k].from, old(table)[k].to, from)
      ensures accepted ==> InForceFrom(Of(table, employee), from)
      ensures accepted ==>
                && |table| == |old(table)| + 1
                && table[|old(table)|] == Structure(|old(table)|, employee, from, None)
                && forall k :: 0 <= k < |old(table)| ==>
                     table[k] == if old(table)[k].employee == employee && old(table)[k].to == None
                                 then old(table)[k].(to := Some(from)) else old(table)[k]
      ensures accepted <==> Created(old(table), Request(employee, from)).Some?
      ensures table == if accepted then Created(old(table), Request(employee, from)).value else old(table)
    {
      OverlapsAmong(table, employee, from);
      CreateKeepsChains(table, Request(employee, from));
      var overlapping := FindOverlap(employee, from);
      if overlapping {
        return false;
      }
      for k := 0 to |table|
        invariant |table| == |old(table)|
        invariant forall j :: k <= j < |table| ==> table[j] == old(table)[j]
        invariant forall j :: 0 <= j < k ==> table[j] == CloseOpenOf(old(table), employee, from)[j]
      {
        if table[k].employee == employee && table[k].to.None? {
          table := table[k := table[k].(to := Some(from))];
        }
      }
      assert table == CloseOpenOf(old(table), employee, from);
      table := table + [Structure(|table|, employee, from, None)];
      return true;
    }

    method FindOverlap(employee: Id, from: int) returns (found: bool)
      ensures found <==> SomeOverlap(Of(table, employee), from)
    {
      for k := 0 to |table|
        invariant !SomeOverlap(Of(table[..k], employee), from)
      {
        assert table[..k + 1][..k] == table[..k];
        OverlapStep(Of(table[..k], employee), table[k], from);
        if table[k].employee == employee && Overlaps(table[k], from) {
          OverlapStays(table, k + 1, employee, from);
          return true;
        }
      }
      assert table[..|table|] == table;
      return false;
    }
  }

  lemma OverlapStep(rows: seq<Structure>, row: Structure, from: int)
    ensures SomeOverlap(rows + [row], from) <==> SomeOverlap(rows, from) || Overlaps(row, from)
  {
    assert (rows + [row])[|rows|] == row;
    assert forall k :: 0 <= k < |rows| ==> (rows + [row])[k] == rows[k];
  }

  lemma {:induction false} OverlapStays(table: seq<Structure>, n: nat, employee: Id, from: int)
    requires n <= |table| && SomeOverlap(Of(table[..n], employee), from)
    ensures SomeOverlap(Of(table, employee), from)
  {
    if n == |table| {
      assert table[..n] == table;
    } else {
      var front, last := table[..|table| - 1], table[|table| - 1];
      assert front[..n] == table[..n];
      OverlapStays(front, n, employee, from);
      OverlapStep(Of(front, employee), last, from);
      assert Of(front, employee) + [] == Of(front, employee);
    }
  }
}
