/**
 * `GET /summary-by-employee`: one entry per employee id seen in the stored
 * submissions, with the name of that id's first record and the number of
 * its records that are Completed and Attempted. The summary is a plain
 * object, so an id that names an inherited `Object.prototype` member
 * already looks present and never gets an entry of its own.
 */
module EmployeeSummary {
  import opened Records

  datatype Summary = Summary(employeeId: string, employeeName: string, completed: nat, attempted: nat)

  /** One record's contribution to its employee's entry; any other status counts toward neither. */
  function Tally(entry: Summary, status: Status): (r: Summary)
    ensures r.employeeId == entry.employeeId && r.employeeName == entry.employeeName
    ensures r.completed == entry.completed + (if status == Completed then 1 else 0)
    ensures r.attempted == entry.attempted + (if status == Attempted then 1 else 0)
  {
    if status == Completed then entry.(completed := entry.completed + 1)
    else if status == Attempted then entry.(attempted := entry.attempted + 1)
    else entry
  }

  /** The summary map after visiting the records of `s` in order. */
  function Summarize(s: seq<Record>): (m: map<string, Summary>)
    ensures forall id :: id in m ==> id !in ObjectPrototypeKeys && m[id].employeeId == id
    decreases |s|
  {
    if s == [] then map[]
    else
      var m := Summarize(s[..|s| - 1]);
      var e := s[|s| - 1];
      if e.employeeId in ObjectPrototypeKeys then m
      else
      var entry := if e.employeeId in m then m[e.employeeId] else Summary(e.employeeId, e.employeeName, 0, 0);
      m[e.employeeId := Tally(entry, e.status)]
  }

  /** The number of records of employee `id` whose status is `status`. */
  function CountStatus(s: seq<Record>, id: string, status: Status): (n: nat)
    decreases |s|
  {
    if s == [] then 0
    else
      var last := if s[|s| - 1].employeeId == id && s[|s| - 1].status == status then 1 else 0;
      CountStatus(s[..|s| - 1], id, status) + last
  }

  /** An employee without records has no records of any status. */
  lemma {:induction false} CountStatusAbsent(s: seq<Record>, id: string, status: Status)
    requires forall i :: 0 <= i < |s| ==> s[i].employeeId != id
    ensures CountStatus(s, id, status) == 0
    decreases |s|
  {
    if s != [] {
      CountStatusAbsent(s[..|s| - 1], id, status);
    }
  }

  /** Whether `i` is the index of the first record of employee `id`. */
  ghost predicate FirstOf(s: seq<Record>, id: string, i: int)
  {
    0 <= i < |s| && s[i].employeeId == id && forall j :: 0 <= j < i ==> s[j].employeeId != id
  }

  /**
   * The summary has an entry exactly for the ids that have a record and do
   * not name an inherited object member; each
   * entry carries its id, the name of the id's first record, and the counts
   * of its Completed and of its Attempted records.
   */
  lemma {:induction false} SummaryCountsRecords(s: seq<Record>, id: string)
    ensures id in Summarize(s) <==>
      id !in ObjectPrototypeKeys && exists i :: 0 <= i < |s| && s[i].employeeId == id
    ensures id in Summarize(s) ==>
      var entry := Summarize(s)[id];
      && entry.employeeId == id
      && entry.completed == CountStatus(s, id, Completed)
      && entry.attempted == CountStatus(s, id, Attempted)
      && exists i :: FirstOf(s, id, i) && entry.employeeName == s[i].employeeName
    decreases |s|
  {
    if s != [] {
      var p := s[..|s| - 1];
      var e := s[|s| - 1];
      SummaryCountsRecords(p, id);
      assert forall i :: 0 <= i < |p| ==> p[i] == s[i];
      if id in Summarize(p) {
        var i :| FirstOf(p, id, i) && Summarize(p)[id].employeeName == p[i].employeeName;
        assert FirstOf(s, id, i);
      } else if e.employeeId == id && id !in ObjectPrototypeKeys {
        CountStatusAbsent(p, id, Completed);
        CountStatusAbsent(p, id, Attempted);
        assert FirstOf(s, id, |s| - 1);
      }
    }
  }

  /**
   * A record whose status is neither Completed nor Attempted adds at most
   * an empty entry for its id and leaves every existing entry as it was.
   */
  lemma OtherStatusCountsForNeither(s: seq<Record>, r: Record)
    requires r.status.Other?
    ensures Summarize(s + [r]).Keys ==
      Summarize(s).Keys + (if r.employeeId in ObjectPrototypeKeys then {} else {r.employeeId})
    ensures r.employeeId !in Summarize(s) && r.employeeId !in ObjectPrototypeKeys ==>
      Summarize(s + [r])[r.employeeId] == Summary(r.employeeId, r.employeeName, 0, 0)
    ensures forall id :: id in Summarize(s) ==> Summarize(s + [r])[id] == Summarize(s)[id]
  {
  }
}
