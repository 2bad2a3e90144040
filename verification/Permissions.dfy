/** The implication table of permission keys, the three ways the system expands a user's keys
    through it, and the overrides applied afterwards. */
module Permissions {

  /** The keys the implication table mentions; every other key, the empty text included, is `Unlisted`. */
  datatype Key =
    | EmployeesRead | EmployeesReadAll
    | AttendanceRead | AttendanceReadAll | AttendanceCreate
    | PayrollRead | PayrollReadAll | PayrollCreate | PayrollManage
    | PayrollApprove | PayrollApproveInitial | PayrollApproveFinal
    | PaymentStructuresRead | PaymentStructuresReadAll | DeductionsManage
    | UsersRead | UsersReadAll | UsersCreate
    | IkiminaRead | IkiminaReadAll | IkiminaManage
    | AuditView | AuditReadAll
    | BranchesManage | DepartmentsManage | BranchManagerManage
    | PositionsRead | PositionsManage
    | Unlisted(name: string)

  const BLANK := Unlisted("")

  type Table = map<Key, seq<Key>>

  /** The entries of the table, written out; the keys without an entry imply nothing. */
  function Entry(k: Key): seq<Key> {
    match k
    case EmployeesReadAll => [EmployeesRead]
    case AttendanceReadAll => [AttendanceRead]
    case AttendanceCreate => [AttendanceRead]
    case PayrollCreate => [PayrollRead, PayrollManage]
    case PayrollManage => [PayrollRead]
    case PayrollReadAll => [PayrollRead]
    case PayrollApprove => [PayrollApproveInitial, PayrollApproveFinal, PayrollRead]
    case PayrollApproveInitial => [PayrollRead]
    case PayrollApproveFinal => [PayrollRead]
    case PaymentStructuresReadAll => [PaymentStructuresRead]
    case DeductionsManage => [PaymentStructuresRead]
    case UsersReadAll => [UsersRead]
    case UsersCreate => [UsersRead]
    case IkiminaManage => [IkiminaRead]
    case IkiminaReadAll => [IkiminaRead]
    case AuditReadAll => [AuditView]
    case BranchesManage => [DepartmentsManage, BranchManagerManage]
    case PositionsManage => [PositionsRead]
    case _ => []
  }

  const IMPLIED_PERMISSIONS: Table :=
    map k | k in {
      EmployeesReadAll, AttendanceReadAll, AttendanceCreate, PayrollCreate, PayrollManage, PayrollReadAll,
      PayrollApprove, PayrollApproveInitial, PayrollApproveFinal, PaymentStructuresReadAll, DeductionsManage,
      UsersReadAll, UsersCreate, IkiminaManage, IkiminaReadAll, AuditReadAll, BranchesManage, PositionsManage
    } :: Entry(k)

  datatype Override = Override(key: Key, allowed: bool)

  /** `table[k] ?? []`. */
  function Implied(table: Table, k: Key): seq<Key> {
    if k in table then table[k] else []
  }

  function Elements(s: seq<Key>): set<Key> {
    set k | k in s
  }

  function NonBlank(s: seq<Key>): set<Key> {
    Elements(s) - {BLANK}
  }

  ghost predicate Closed(table: Table, s: set<Key>) {
    forall k, j :: k in s && j in Implied(table, k) ==> j in s
  }

  /** `r` is the least set that holds every key of `s` and whatever its own keys imply. */
  ghost predicate IsLeastClosure(table: Table, s: set<Key>, r: set<Key>) {
    && s <= r
    && Closed(table, r)
    && forall c: set<Key> :: s <= c && Closed(table, c) ==> r <= c
  }

  /** The back end's expansion: the keys themselves and what they imply directly, once. */
  function SinglePass(table: Table, s: set<Key>): set<Key> {
    s + set k, j | k in s && j in Implied(table, k) :: j
  }

  /** What a key implies in two steps it already implies in one (or is the key itself). */
  ghost predicate TransitivelyClosed(table: Table) {
    forall k, j, i :: j in Implied(table, k) && i in Implied(table, j) ==> i == k || i in Implied(table, k)
  }

  function ApplyOverride(s: set<Key>, o: Override): set<Key> {
    if o.allowed then s + {o.key} else s - {o.key}
  }

  /** The overrides in order, each granting or removing its key. */
  function ApplyOverrides(s: set<Key>, overrides: seq<Override>): set<Key> {
    if overrides == [] then s
    else ApplyOverride(ApplyOverrides(s, overrides[..|overrides| - 1]), overrides[|overrides| - 1])
  }

  /** Raw keys expanded once, then adjusted: what every authorisation check compares against. */
  function Effective(table: Table, raw: set<Key>, overrides: seq<Override>): set<Key> {
    ApplyOverrides(SinglePass(table, raw), overrides)
  }

  // ---------- the front end's fixpoint ----------

  function Universe(table: Table): set<Key> {
    set k, j | k in table && j in table[k] :: j
  }

  /** The front end's `expandPermissionKeys`: sweep the keys until a sweep adds nothing. */
  method ExpandPermissionKeys(table: Table, permissions: seq<Key>) returns (expanded: set<Key>)
    ensures IsLeastClosure(table, NonBlank(permissions), expanded)
  {
    ghost var start := NonBlank(permissions);
    ghost var bound := start + Universe(table);
    expanded := NonBlank(permissions);
    var changed := true;
    while changed
      invariant start <= expanded <= bound
      invariant forall c: set<Key> :: start <= c && Closed(table, c) ==> expanded <= c
      invariant !changed ==> Closed(table, expanded)
      decreases bound - expanded, changed
    {
      changed := false;
      ghost var before := expanded;
      var todo := expanded;
      while todo != {}
        invariant todo <= before <= expanded <= bound
        invariant forall c: set<Key> :: start <= c && Closed(table, c) ==> expanded <= c
        invariant !changed ==> expanded == before
        invariant changed ==> bound - expanded < bound - before
        invariant forall k, j :: k in before - todo && j in Implied(table, k) ==> j in expanded
        decreases todo
      {
        var permission :| permission in todo;
        expanded, changed := AddImplied(table, permission, expanded, changed, bound);
        todo := todo - {permission};
      }
    }
  }

  /** The innermost loop: add what one key implies, and note whether anything was new. */
  method AddImplied(table: Table, permission: Key, expanded: set<Key>, changed: bool, ghost bound: set<Key>)
    returns (grown: set<Key>, flag: bool)
    requires expanded <= bound && Universe(table) <= bound
    ensures grown == expanded + Elements(Implied(table, permission))
    ensures grown <= bound
    ensures flag == (changed || grown != expanded)
    ensures grown != expanded ==> bound - grown < bound - expanded
  {
    grown, flag := expanded, changed;
    var implied := Implied(table, permission);
    for n := 0 to |implied|
      invariant grown == expanded + Elements(implied[..n])
      invariant expanded <= grown
      invariant flag == (changed || grown != expanded)
    {
      assert implied[..n + 1] == implied[..n] + [implied[n]];
      if implied[n] !in grown {
        grown, flag := grown + {implied[n]}, true;
      }
    }
    assert implied[..|implied|] == implied;
    assert grown <= bound;
    if grown <= expanded {
      assert grown == expanded;
    } else {
      var k :| k in grown && k !in expanded;
      assert k in bound - expanded && k !in bound - grown;
    }
  }

  lemma LeastClosureIsMonotone(table: Table, s: set<Key>, r: set<Key>, s': set<Key>, r': set<Key>)
    requires IsLeastClosure(table, s, r) && IsLeastClosure(table, s', r') && s <= s'
    ensures r <= r'
    ensures s == s' ==> r == r'
    ensures IsLeastClosure(table, r, r)
  {
    assert s <= r' && Closed(table, r');
  }

  // ---------- the back end's single pass ----------

  lemma TransitiveTableClosesInOnePass(table: Table, s: set<Key>)
    requires TransitivelyClosed(table)
    ensures IsLeastClosure(table, s, SinglePass(table, s))
  {
    var r := SinglePass(table, s);
    forall k, j | k in r && j in Implied(table, k) ensures j in r {
      if k !in s {
        var h :| h in s && k in Implied(table, h);
        assert j == h || j in Implied(table, h);
      }
    }
  }

  /** One pass reaches the least closed set for every starting set exactly when the table is
      transitively closed. */
  lemma SinglePassSufficesIffTransitive(table: Table)
    ensures (forall s :: IsLeastClosure(table, s, SinglePass(table, s))) <==> TransitivelyClosed(table)
  {
    if TransitivelyClosed(table) {
      forall s ensures IsLeastClosure(table, s, SinglePass(table, s)) {
        TransitiveTableClosesInOnePass(table, s);
      }
    }
    if forall s :: IsLeastClosure(table, s, SinglePass(table, s)) {
      forall k, j, i | j in Implied(table, k) && i in Implied(table, j)
        ensures i == k || i in Implied(table, k)
      {
        var r := SinglePass(table, {k});
        assert IsLeastClosure(table, {k}, r);
        assert k in {k} && j in r;
        assert i in r;
        if i != k {
          var h :| h in {k} && i in Implied(table, h);
          assert h == k;
        }
      }
    }
  }

  lemma ImpliedIsEntry(k: Key)
    ensures Implied(IMPLIED_PERMISSIONS, k) == Entry(k)
  {
  }

  /** What an implied key implies in turn: only payroll reading, which its own source implies too. */
  lemma ImpliedKeysThatImply(k: Key, j: Key)
    requires j in Entry(k) && Entry(j) != []
    ensures Entry(j) == [PayrollRead] && PayrollRead in Entry(k)
  {
    if k == PayrollCreate {
      assert j == PayrollRead || j == PayrollManage;
    } else if k == PayrollApprove {
      assert Entry(k)[2] == PayrollRead;
      assert j == PayrollApproveInitial || j == PayrollApproveFinal || j == PayrollRead;
    }
  }

  /** The system's own table is transitively closed. */
  lemma ImpliedPermissionsAreTransitive()
    ensures TransitivelyClosed(IMPLIED_PERMISSIONS)
  {
    forall k, j, i | j in Implied(IMPLIED_PERMISSIONS, k) && i in Implied(IMPLIED_PERMISSIONS, j)
      ensures i in Implied(IMPLIED_PERMISSIONS, k)
    {
      ImpliedIsEntry(k);
      ImpliedIsEntry(j);
      ImpliedKeysThatImply(k, j);
    }
  }

  /** The front end's fixpoint and the back end's single pass give the same keys, the blank key aside. */
  lemma FrontEndAndBackEndAgree(permissions: seq<Key>, expanded: set<Key>)
    requires IsLeastClosure(IMPLIED_PERMISSIONS, NonBlank(permissions), expanded)
    ensures expanded == SinglePass(IMPLIED_PERMISSIONS, Elements(permissions)) - {BLANK}
  {
    ImpliedPermissionsAreTransitive();
    TransitiveTableClosesInOnePass(IMPLIED_PERMISSIONS, NonBlank(permissions));
    var r := SinglePass(IMPLIED_PERMISSIONS, NonBlank(permissions));
    LeastClosureIsMonotone(IMPLIED_PERMISSIONS, NonBlank(permissions), expanded, NonBlank(permissions), r);
    ImpliedIsEntry(BLANK);
    forall k ensures BLANK !in Implied(IMPLIED_PERMISSIONS, k) {
      ImpliedIsEntry(k);
    }
  }

  // ---------- effective permissions, computed twice ----------

  function LastOverride(overrides: seq<Override>, k: Key): (last: int)
    ensures -1 <= last < |overrides|
    ensures last >= 0 ==> overrides[last].key == k
    ensures forall n :: last < n < |overrides| ==> overrides[n].key != k
  {
    if overrides == [] then -1
    else if overrides[|overrides| - 1].key == k then |overrides| - 1
    else LastOverride(overrides[..|overrides| - 1], k)
  }

  /** The last override that names a key decides it; a key no override names keeps its grant. */
  lemma {:induction false} LastOverrideWins(s: set<Key>, overrides: seq<Override>, k: Key)
    ensures k in ApplyOverrides(s, overrides) <==>
            (var last := LastOverride(overrides, k); if last >= 0 then overrides[last].allowed else k in s)
  {
    if overrides != [] {
      LastOverrideWins(s, overrides[..|overrides| - 1], k);
    }
  }

  predicate Named(overrides: seq<Override>, k: Key) {
    exists n | 0 <= n < |overrides| :: overrides[n].key == k
  }

  /** The last override of the key allows it. */
  ghost predicate LastAllows(overrides: seq<Override>, k: Key) {
    exists n :: 0 <= n < |overrides| && overrides[n].key == k && overrides[n].allowed
                && forall m :: n < m < |overrides| ==> overrides[m].key != k
  }

  /** The key is granted, or some granted key has it in its entry of the table. */
  predicate Reaches(table: Table, raw: set<Key>, k: Key) {
    k in raw || exists h | h in raw :: h in table && k in table[h]
  }

  lemma SinglePassReaches(table: Table, raw: set<Key>, k: Key)
    ensures k in SinglePass(table, raw) <==> Reaches(table, raw, k)
  {
    if h :| h in raw && h in table && k in table[h] {
      assert k in Implied(table, h);
    }
  }

  /** Whether a key is effective: as its last override says, and without one by the grants and what they imply. */
  lemma EffectiveIff(table: Table, raw: set<Key>, overrides: seq<Override>, k: Key)
    ensures k in Effective(table, raw, overrides) <==>
            LastAllows(overrides, k) || (!Named(overrides, k) && Reaches(table, raw, k))
  {
    LastOverrideWins(SinglePass(table, raw), overrides, k);
    SinglePassReaches(table, raw, k);
    var last := LastOverride(overrides, k);
    if last >= 0 {
      assert Named(overrides, k);
      assert LastAllows(overrides, k) <==> overrides[last].allowed;
    }
  }

  /** A key of some role, or a direct one. */
  predicate IsGranted(roleKeys: seq<seq<Key>>, direct: seq<Key>, k: Key) {
    k in direct || exists r | 0 <= r < |roleKeys| :: k in roleKeys[r]
  }

  lemma RawKeysAreGranted(roleKeys: seq<seq<Key>>, direct: seq<Key>)
    ensures forall k :: k in RawKeys(roleKeys, direct) <==> IsGranted(roleKeys, direct, k)
  {
  }

  /** The same over roles and direct keys. */
  ghost predicate IsEffective(table: Table, roleKeys: seq<seq<Key>>, direct: seq<Key>, overrides: seq<Override>,
                              k: Key) {
    || LastAllows(overrides, k)
    || (!Named(overrides, k)
        && (IsGranted(roleKeys, direct, k)
            || exists h :: IsGranted(roleKeys, direct, h) && h in table && k in table[h]))
  }

  lemma EffectiveOfRoles(table: Table, roleKeys: seq<seq<Key>>, direct: seq<Key>, overrides: seq<Override>, k: Key)
    ensures k in Effective(table, RawKeys(roleKeys, direct), overrides) <==>
            IsEffective(table, roleKeys, direct, overrides, k)
  {
    EffectiveIff(table, RawKeys(roleKeys, direct), overrides, k);
    RawKeysAreGranted(roleKeys, direct);
  }

  /** Login, refresh and every request: role keys plus direct keys, one pass, every override. */
  method BuildEffectivePermissions(table: Table, roleKeys: seq<seq<Key>>, direct: seq<Key>, overrides: seq<Override>)
    returns (permissions: set<Key>)
    ensures permissions == Effective(table, RawKeys(roleKeys, direct), overrides)
    ensures forall k :: k in permissions <==> IsEffective(table, roleKeys, direct, overrides, k)
  {
    forall k ensures k in Effective(table, RawKeys(roleKeys, direct), overrides) <==>
                     IsEffective(table, roleKeys, direct, overrides, k) {
      EffectiveOfRoles(table, roleKeys, direct, overrides, k);
    }
    var raw: set<Key> := {};
    for r := 0 to |roleKeys|
      invariant raw == RoleKeys(roleKeys[..r])
    {
      raw := raw + Elements(roleKeys[r]);
      assert roleKeys[..r + 1] == roleKeys[..r] + [roleKeys[r]];
    }
    assert roleKeys[..|roleKeys|] == roleKeys;
    raw := raw + Elements(direct);

    permissions := raw;
    var initial := raw;
    while initial != {}
      invariant initial <= raw
      invariant permissions == raw + set k, j | k in raw - initial && j in Implied(table, k) :: j
      decreases initial
    {
      var key :| key in initial;
      permissions := permissions + Elements(Implied(table, key));
      initial := initial - {key};
    }

    for n := 0 to |overrides|
      invariant permissions == ApplyOverrides(SinglePass(table, raw), overrides[..n])
    {
      assert overrides[..n + 1][..n] == overrides[..n];
      permissions := ApplyOverride(permissions, overrides[n]);
    }
    assert overrides[..|overrides|] == overrides;
  }

  function RoleKeys(roleKeys: seq<seq<Key>>): set<Key> {
    set r, k | 0 <= r < |roleKeys| && k in roleKeys[r] :: k
  }

  function RawKeys(roleKeys: seq<seq<Key>>, direct: seq<Key>): set<Key> {
    RoleKeys(roleKeys) + Elements(direct)
  }

  datatype Source = FromRole | FromDirect | FromImplied | FromOverride

  function DropBlank(overrides: seq<Override>): seq<Override> {
    if overrides == [] then []
    else
      var last := overrides[|overrides| - 1];
      DropBlank(overrides[..|overrides| - 1]) + (if last.key == BLANK then [] else [last])
  }

  /** The label a key carries before the overrides: a direct grant hides a role's, which hides an implied one. */
  function SourceOf(roles: set<Key>, direct: seq<Key>, k: Key): Source {
    if k in direct then FromDirect else if k in roles then FromRole else FromImplied
  }

  method CollectRawSources(roleKeys: seq<seq<Key>>, direct: seq<Key>) returns (sources: map<Key, Source>)
    ensures sources.Keys == RawKeys(roleKeys, direct)
    ensures forall k :: k in sources ==> sources[k] == SourceOf(RoleKeys(roleKeys), direct, k)
  {
    sources := map[];
    for r := 0 to |roleKeys|
      invariant sources.Keys == RoleKeys(roleKeys[..r])
      invariant forall k :: k in sources ==> sources[k] == FromRole
    {
      sources := sources + map k | k in Elements(roleKeys[r]) :: FromRole;
      assert roleKeys[..r + 1] == roleKeys[..r] + [roleKeys[r]];
    }
    assert roleKeys[..|roleKeys|] == roleKeys;
    sources := sources + map k | k in Elements(direct) :: FromDirect;
  }

  method AddImpliedSources(table: Table, start: map<Key, Source>) returns (sources: map<Key, Source>)
    ensures sources.Keys == SinglePass(table, start.Keys)
    ensures forall k :: k in sources ==> sources[k] == if k in start then start[k] else FromImplied
  {
    sources := start;
    var initial := start.Keys;
    while initial != {}
      invariant initial <= start.Keys
      invariant sources.Keys == start.Keys + set k, j | k in start.Keys - initial && j in Implied(table, k) :: j
      invariant forall k :: k in sources ==> sources[k] == if k in start then start[k] else FromImplied
      decreases initial
    {
      var key :| key in initial;
      var added := Elements(Implied(table, key)) - sources.Keys;
      sources := sources + map k | k in added :: FromImplied;
      initial := initial - {key};
    }
  }

  /** An override without a key is skipped. */
  function OverrideSource(sources: map<Key, Source>, o: Override): (r: map<Key, Source>)
    ensures r.Keys == if o.key == BLANK then sources.Keys else ApplyOverride(sources.Keys, o)
    ensures forall k :: k in r ==>
              if o.key != BLANK && k == o.key then r[k] == FromOverride else k in sources && r[k] == sources[k]
  {
    if o.key == BLANK then sources
    else if o.allowed then sources[o.key := FromOverride]
    else sources - {o.key}
  }

  /** A key that an override names is labelled so; any other keeps its label. */
  predicate LabelledBy(start: map<Key, Source>, overrides: seq<Override>, k: Key, source: Source) {
    if k != BLANK && Named(overrides, k) then source == FromOverride else k in start && source == start[k]
  }

  lemma NamedGrows(overrides: seq<Override>, o: Override)
    ensures forall k :: Named(overrides + [o], k) <==> Named(overrides, k) || k == o.key
  {
    var longer := overrides + [o];
    assert longer[|overrides|] == o;
    assert forall n :: 0 <= n < |overrides| ==> longer[n] == overrides[n];
  }

  method ApplyOverrideSources(start: map<Key, Source>, overrides: seq<Override>) returns (sources: map<Key, Source>)
    ensures sources.Keys == ApplyOverrides(start.Keys, DropBlank(overrides))
    ensures forall k :: k in sources ==> LabelledBy(start, overrides, k, sources[k])
  {
    sources := start;
    for n := 0 to |overrides|
      invariant sources.Keys == ApplyOverrides(start.Keys, DropBlank(overrides[..n]))
      invariant forall k :: k in sources ==> LabelledBy(start, overrides[..n], k, sources[k])
    {
      assert overrides[..n + 1] == overrides[..n] + [overrides[n]];
      NamedGrows(overrides[..n], overrides[n]);
      DropBlankStep(start.Keys, overrides[..n], overrides[n]);
      sources := OverrideSource(sources, overrides[n]);
    }
    assert overrides[..|overrides|] == overrides;
  }

  /** The user page's `serializeEffectivePermissions`: a map from key to where it came from. */
  method SerializeEffectivePermissions(table: Table, roleKeys: seq<seq<Key>>, direct: seq<Key>,
                                       overrides: seq<Override>)
    returns (sources: map<Key, Source>)
    ensures sources.Keys == Effective(table, RawKeys(roleKeys, direct), DropBlank(overrides))
    ensures forall k :: k in sources ==>
              sources[k] == if k != BLANK && Named(overrides, k) then FromOverride
                            else if k in direct then FromDirect
                            else if exists r | 0 <= r < |roleKeys| :: k in roleKeys[r] then FromRole
                            else FromImplied
    ensures forall k :: k != BLANK ==> (k in sources <==> IsEffective(table, roleKeys, direct, overrides, k))
  {
    SerializedKeys(table, roleKeys, direct, overrides);
    var raw := CollectRawSources(roleKeys, direct);
    var expanded := AddImpliedSources(table, raw);
    sources := ApplyOverrideSources(expanded, overrides);
  }

  lemma ApplyOverridesAppend(s: set<Key>, overrides: seq<Override>, o: Override)
    ensures ApplyOverrides(s, overrides + [o]) == ApplyOverride(ApplyOverrides(s, overrides), o)
  {
    assert (overrides + [o])[..|overrides|] == overrides;
  }

  /** Applying what is left of a longer list: its last override counts unless its key is blank. */
  lemma DropBlankStep(s: set<Key>, overrides: seq<Override>, o: Override)
    ensures var before := ApplyOverrides(s, DropBlank(overrides));
            ApplyOverrides(s, DropBlank(overrides + [o])) == if o.key == BLANK then before else ApplyOverride(before, o)
  {
    assert (overrides + [o])[..|overrides|] == overrides;
    if o.key == BLANK {
      assert DropBlank(overrides) + [] == DropBlank(overrides);
    } else {
      ApplyOverridesAppend(s, DropBlank(overrides), o);
    }
  }

  lemma {:induction false} DropBlankKeepsOtherKeys(s: set<Key>, overrides: seq<Override>, k: Key)
    requires k != BLANK
    ensures k in ApplyOverrides(s, DropBlank(overrides)) <==> k in ApplyOverrides(s, overrides)
  {
    if overrides != [] {
      var front, last := overrides[..|overrides| - 1], overrides[|overrides| - 1];
      DropBlankKeepsOtherKeys(s, front, k);
      DropBlankStep(s, front, last);
      assert front + [last] == overrides;
    }
  }

  lemma {:induction false} DropBlankHasNoBlank(s: set<Key>, overrides: seq<Override>)
    ensures BLANK in ApplyOverrides(s, DropBlank(overrides)) <==> BLANK in s
  {
    if overrides != [] {
      var front, last := overrides[..|overrides| - 1], overrides[|overrides| - 1];
      DropBlankHasNoBlank(s, front);
      DropBlankStep(s, front, last);
      assert front + [last] == overrides;
    }
  }

  /** The two computations agree on every key that is not blank, and on the blank key exactly when
      no override names it or the last one that does repeats what the expansion already says. */
  lemma EffectiveComputationsAgree(table: Table, raw: set<Key>, overrides: seq<Override>)
    ensures Effective(table, raw, overrides) - {BLANK} == Effective(table, raw, DropBlank(overrides)) - {BLANK}
    ensures Effective(table, raw, overrides) == Effective(table, raw, DropBlank(overrides)) <==>
            (var last := LastOverride(overrides, BLANK);
             last < 0 || overrides[last].allowed == (BLANK in SinglePass(table, raw)))
  {
    var s := SinglePass(table, raw);
    forall k | k != BLANK
      ensures k in ApplyOverrides(s, DropBlank(overrides)) <==> k in ApplyOverrides(s, overrides)
    {
      DropBlankKeepsOtherKeys(s, overrides, k);
    }
    DropBlankHasNoBlank(s, overrides);
    LastOverrideWins(s, overrides, BLANK);
  }

  lemma SerializedKeys(table: Table, roleKeys: seq<seq<Key>>, direct: seq<Key>, overrides: seq<Override>)
    ensures forall k :: k != BLANK ==>
              (k in Effective(table, RawKeys(roleKeys, direct), DropBlank(overrides)) <==>
                IsEffective(table, roleKeys, direct, overrides, k))
  {
    forall k | k != BLANK
      ensures k in Effective(table, RawKeys(roleKeys, direct), DropBlank(overrides)) <==>
              IsEffective(table, roleKeys, direct, overrides, k)
    {
      DropBlankKeepsOtherKeys(SinglePass(table, RawKeys(roleKeys, direct)), overrides, k);
      EffectiveOfRoles(table, roleKeys, direct, overrides, k);
    }
  }
}
