/**
 * The department drop-down of the dashboard: the options derived from the
 * fetched records, and the records shown for the selected option.
 */
module DepartmentFilter {
  import opened EmployeeValidation

  /** `Array.from(new Set(employees.map(e => e.department).filter(Boolean)))`: a
      `Set` keeps the first insertion of each value, so each record's department
      is appended when it is non-empty and not yet present. */
  function DepartmentOptions(emps: seq<Employee>): seq<string>
  {
    if emps == [] then []
    else
      var ds := DepartmentOptions(emps[..|emps| - 1]);
      var d := emps[|emps| - 1].department;
      if d == "" || d in ds then ds else ds + [d]
  }

  ghost predicate HasDepartment(emps: seq<Employee>, d: string)
  {
    exists k | 0 <= k < |emps| :: emps[k].department == d
  }

  /** The department options are exactly the non-empty departments of the
      records, each listed once. */
  lemma {:induction false} DepartmentOptionsExact(emps: seq<Employee>)
    ensures forall i, j | 0 <= i < j < |DepartmentOptions(emps)| ::
              DepartmentOptions(emps)[i] != DepartmentOptions(emps)[j]
    ensures forall d :: d in DepartmentOptions(emps) <==> d != "" && HasDepartment(emps, d)
  {
    if emps != [] {
      var p := emps[..|emps| - 1];
      DepartmentOptionsExact(p);
      forall d | HasDepartment(emps, d) && d != "" && d != emps[|emps| - 1].department
        ensures HasDepartment(p, d)
      {
        var k :| 0 <= k < |emps| && emps[k].department == d;
        assert p[k] == emps[k];
      }
      forall d | HasDepartment(p, d)
        ensures HasDepartment(emps, d)
      {
        var k :| 0 <= k < |p| && p[k].department == d;
        assert emps[k] == p[k];
      }
    }
  }

  /** The position of the first record of department `d` (`|emps|` if none). */
  function FirstIndexOf(emps: seq<Employee>, d: string): (k: nat)
    ensures k <= |emps|
    ensures k < |emps| ==> emps[k].department == d
    ensures forall j | 0 <= j < k :: emps[j].department != d
  {
    if emps == [] then 0
    else if emps[0].department == d then 0
    else 1 + FirstIndexOf(emps[1..], d)
  }

  /** The first index is a position exactly when some record has department `d`. */
  lemma FirstIndexOfFound(emps: seq<Employee>, d: string)
    ensures FirstIndexOf(emps, d) < |emps| <==> HasDepartment(emps, d)
  {
    var k := FirstIndexOf(emps, d);
    if k < |emps| {
      assert emps[k].department == d;
    }
  }

  /** A record added at the end does not move an earlier first appearance. */
  lemma FirstIndexOfAppend(p: seq<Employee>, e: Employee, d: string)
    ensures FirstIndexOf(p + [e], d) == if FirstIndexOf(p, d) < |p| then FirstIndexOf(p, d)
                                        else if e.department == d then |p| else |p| + 1
  {
    var s := p + [e];
    var k, k' := FirstIndexOf(p, d), FirstIndexOf(s, d);
    if k < |p| {
      assert s[k] == p[k];
    } else {
      assert forall j | 0 <= j < |p| :: s[j] == p[j];
      if e.department == d { assert s[|p|] == e; }
    }
  }

  /** The options are in the order of the departments' first appearance. */
  lemma {:induction false} DepartmentOptionsOrder(emps: seq<Employee>)
    ensures forall i, j | 0 <= i < j < |DepartmentOptions(emps)| ::
              FirstIndexOf(emps, DepartmentOptions(emps)[i]) < FirstIndexOf(emps, DepartmentOptions(emps)[j])
    ensures forall i | 0 <= i < |DepartmentOptions(emps)| ::
              FirstIndexOf(emps, DepartmentOptions(emps)[i]) < |emps|
  {
    if emps != [] {
      var p, e := emps[..|emps| - 1], emps[|emps| - 1];
      assert emps == p + [e];
      DepartmentOptionsOrder(p);
      DepartmentOptionsExact(p);
      var dp := DepartmentOptions(p);
      forall i | 0 <= i < |dp|
        ensures FirstIndexOf(emps, dp[i]) == FirstIndexOf(p, dp[i]) < |p|
      {
        FirstIndexOfAppend(p, e, dp[i]);
      }
      if e.department != "" && e.department !in dp {
        FirstIndexOfAppend(p, e, e.department);
        FirstIndexOfFound(p, e.department);
      }
    }
  }

  /** `employees.filter(e => e.department === dept)`. */
  function InDepartment(emps: seq<Employee>, dept: string): seq<Employee>
  {
    if emps == [] then []
    else
      var e := emps[|emps| - 1];
      InDepartment(emps[..|emps| - 1], dept) + (if e.department == dept then [e] else [])
  }

  /** The positions of the records the filter keeps. */
  function KeptPositions(emps: seq<Employee>, dept: string): seq<nat>
  {
    if emps == [] then []
    else
      var n := |emps| - 1;
      KeptPositions(emps[..n], dept) + (if emps[n].department == dept then [n] else [])
  }

  /** The filter keeps exactly the records of department `dept`, in their order:
      its i-th record is the record at the i-th kept position, those positions
      increase, and they are exactly the positions whose department is `dept`. */
  lemma {:induction false} InDepartmentSelects(emps: seq<Employee>, dept: string)
    ensures |KeptPositions(emps, dept)| == |InDepartment(emps, dept)|
    ensures forall i, j | 0 <= i < j < |KeptPositions(emps, dept)| ::
              KeptPositions(emps, dept)[i] < KeptPositions(emps, dept)[j]
    ensures forall k: nat :: k in KeptPositions(emps, dept) <==> k < |emps| && emps[k].department == dept
    ensures forall i | 0 <= i < |KeptPositions(emps, dept)| ::
              KeptPositions(emps, dept)[i] < |emps| &&
              InDepartment(emps, dept)[i] == emps[KeptPositions(emps, dept)[i]]
  {
    if emps != [] {
      var n := |emps| - 1;
      var p := emps[..n];
      InDepartmentSelects(p, dept);
      assert forall k | 0 <= k < n :: p[k] == emps[k];
    }
  }

  /** `displayedEmployees`: every record for the sentinel "All", otherwise the
      records of the selected department. */
  function DisplayedEmployees(emps: seq<Employee>, selected: string): seq<Employee>
  {
    if selected == "All" then emps else InDepartment(emps, selected)
  }

  /** "All" shows the list as fetched; any other choice shows the records whose
      department equals it exactly, and only those. */
  lemma DisplayedEmployeesSpec(emps: seq<Employee>, selected: string)
    ensures selected == "All" ==> DisplayedEmployees(emps, selected) == emps
    ensures selected != "All" ==>
              forall e :: e in DisplayedEmployees(emps, selected) <==> e in emps && e.department == selected
  {
    if selected != "All" {
      InDepartmentSelects(emps, selected);
      var r, ks := InDepartment(emps, selected), KeptPositions(emps, selected);
      forall e | e in emps && e.department == selected
        ensures e in r
      {
        var k :| 0 <= k < |emps| && emps[k] == e;
        assert k in ks;
        var i :| 0 <= i < |ks| && ks[i] == k;
        assert r[i] == e;
      }
      forall e | e in r
        ensures e in emps && e.department == selected
      {
        var i :| 0 <= i < |r| && r[i] == e;
        assert ks[i] in ks;
      }
    }
  }
}
