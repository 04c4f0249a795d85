/**
 * The `taskStatus` index served by `GET /employee/:id`: for one employee,
 * each task mapped to a status, later records overwriting earlier ones.
 * The index is a plain object, so a record for the task `__proto__` is
 * dropped: assigning a string to that property does nothing.
 */
module TaskIndex {
  import opened Records

  /** The index after visiting the records of `s` in order. */
  function TaskStatus(s: seq<Record>, id: string): (m: map<string, Status>)
    ensures "__proto__" !in m
    decreases |s|
  {
    if s == [] then map[]
    else
      var m := TaskStatus(s[..|s| - 1], id);
      var e := s[|s| - 1];
      if e.employeeId == id && e.task != "__proto__" then m[e.task := e.status] else m
  }

  /** Whether `i` is the index of the last record of the key (id, task). */
  ghost predicate LastOf(s: seq<Record>, id: string, task: string, i: int)
  {
    0 <= i < |s| && Matches(s[i], id, task) && forall j :: i < j < |s| ==> !Matches(s[j], id, task)
  }

  /**
   * The index holds exactly the tasks other than `__proto__` that employee
   * `id` has a record for, each mapped to the status of the last such record.
   */
  lemma {:induction false} TaskStatusIsLastRecord(s: seq<Record>, id: string, task: string)
    ensures task in TaskStatus(s, id) <==>
      task != "__proto__" && exists i :: 0 <= i < |s| && Matches(s[i], id, task)
    ensures task in TaskStatus(s, id) ==>
      exists i :: LastOf(s, id, task, i) && TaskStatus(s, id)[task] == s[i].status
    decreases |s|
  {
    if s != [] {
      var p := s[..|s| - 1];
      var e := s[|s| - 1];
      TaskStatusIsLastRecord(p, id, task);
      assert forall i :: 0 <= i < |p| ==> p[i] == s[i];
      if Matches(e, id, task) && task != "__proto__" {
        assert LastOf(s, id, task, |s| - 1);
      } else if task in TaskStatus(p, id) {
        var i :| LastOf(p, id, task, i) && TaskStatus(p, id)[task] == p[i].status;
        assert LastOf(s, id, task, i);
      }
    }
  }

  /**
   * While keys are unique, the index agrees with the record `/submit`
   * consults, so the status shown is the status that decides a resubmission;
   * only a task named `__proto__` is missing from the index.
   */
  lemma TaskStatusAgreesWithFirstMatch(s: seq<Record>, id: string, task: string)
    requires NoDuplicateKeys(s)
    ensures task in TaskStatus(s, id) <==> task != "__proto__" && FirstMatch(s, id, task).Some?
    ensures task in TaskStatus(s, id) ==> TaskStatus(s, id)[task] == s[FirstMatch(s, id, task).value].status
  {
    TaskStatusIsLastRecord(s, id, task);
    if task in TaskStatus(s, id) {
      var i :| LastOf(s, id, task, i) && TaskStatus(s, id)[task] == s[i].status;
      var k := FirstMatch(s, id, task).value;
      SameKeySameIndex(s, id, task, k, i);
    }
  }
}
