/**
 * The server's in-memory state and the handlers that read and change it:
 * the stored submissions, updated in place or appended to by `/submit`,
 * and the employee table, extended by `/add-employee`.
 */
module Server {
  import opened Records
  import opened SubmitRules
  import opened EmployeeSummary
  import opened TaskIndex

  class Tracker {
    var submissions: seq<Record>
    var employees: map<string, Employee>

    /** The state once the employee table and the submissions file have been loaded. */
    constructor (employees: map<string, Employee>, submissions: seq<Record>)
      ensures this.employees == employees && this.submissions == submissions
    {
      this.employees := employees;
      this.submissions := submissions;
    }

    /** The index of the first stored record of the key (employeeId, task), if any. */
    method Find(employeeId: string, task: string) returns (found: Option<nat>)
      ensures found == FirstMatch(submissions, employeeId, task)
    {
      var i := 0;
      while i < |submissions|
        invariant 0 <= i <= |submissions|
        invariant forall j :: 0 <= j < i ==> !Matches(submissions[j], employeeId, task)
      {
        if Matches(submissions[i], employeeId, task) {
          return Some(i);
        }
        i := i + 1;
      }
      return None;
    }

    /**
     * `POST /submit`: refuse a request whose key already has a Completed
     * record, or an Attempted record when the request is Attempted again;
     * otherwise set the status of the key's first record, or append a new
     * record stamped `timestamp` when the key has none.
     */
    method Submit(req: Request, timestamp: string) returns (outcome: Outcome)
      modifies this`submissions
      ensures outcome == Verdict(old(submissions), req)
      ensures submissions == AfterSubmit(old(submissions), req, timestamp)
      ensures outcome != Recorded ==> submissions == old(submissions)
      ensures NoDuplicateKeys(old(submissions)) ==> NoDuplicateKeys(submissions)
    {
      var existing := Find(req.employeeId, req.task);
      if existing.Some? && submissions[existing.value].status == Completed {
        return AlreadyCompleted;
      }
      if existing.Some? && submissions[existing.value].status == Attempted && req.status == Attempted {
        return MustMarkCompleted;
      }
      ghost var before := submissions;
      if existing.Some? {
        var i := existing.value;
        submissions := submissions[i := submissions[i].(status := req.status)];
      } else {
        submissions := submissions + [NewRecord(req, timestamp)];
      }
      outcome := Recorded;
      if NoDuplicateKeys(before) {
        SubmitKeepsKeysUnique(before, req, timestamp);
      }
    }

    /** `GET /summary-by-employee`: the per-employee counts, built in one pass over the submissions. */
    method SummaryByEmployee() returns (summary: map<string, Summary>)
      ensures summary == Summarize(submissions)
    {
      summary := map[];
      var i := 0;
      while i < |submissions|
        invariant 0 <= i <= |submissions|
        invariant summary == Summarize(submissions[..i])
      {
        var entry := submissions[i];
        var id := entry.employeeId;
        // An inherited member already looks present, so no entry is made for it.
        if id !in summary && id !in ObjectPrototypeKeys {
          summary := summary[id := Summary(id, entry.employeeName, 0, 0)];
        }
        if id in summary {
          summary := summary[id := Tally(summary[id], entry.status)];
        }
        assert submissions[..i + 1][..i] == submissions[..i];
        i := i + 1;
      }
      assert submissions[..i] == submissions;
    }

    /**
     * `GET /employee/:id`: the employee's table entry, or an empty entry
     * for an unknown id, with the status of each of the employee's tasks.
     * An id naming an inherited object member finds that member, which
     * has no name, departments or tasks: `data` is then `None`.
     */
    method EmployeeDetails(id: string) returns (data: Option<Employee>, taskStatus: map<string, Status>)
      ensures id in employees ==> data == Some(employees[id])
      ensures id !in employees ==> (data.None? <==> id in ObjectPrototypeKeys)
      ensures id !in employees && data.Some? ==> data.value == NoEmployee
      ensures taskStatus == TaskStatus(submissions, id)
    {
      data := if id in employees then Some(employees[id])
              else if id in ObjectPrototypeKeys then None
              else Some(NoEmployee);
      taskStatus := map[];
      var i := 0;
      while i < |submissions|
        invariant 0 <= i <= |submissions|
        invariant taskStatus == TaskStatus(submissions[..i], id)
      {
        var s := submissions[i];
        // Assigning a string to `__proto__` leaves the object as it was.
        if s.employeeId == id && s.task != "__proto__" {
          taskStatus := taskStatus[s.task := s.status];
        }
        assert submissions[..i + 1][..i] == submissions[..i];
        i := i + 1;
      }
      assert submissions[..i] == submissions;
    }

    /**
     * `POST /add-employee`: refuse an id the table already answers for,
     * its own entries and the members every object inherits; otherwise
     * insert it.
     */
    method AddEmployee(id: string, name: string, departments: seq<string>, tasks: seq<string>)
      returns (added: bool)
      modifies this`employees
      ensures added <==> id !in old(employees) && id !in ObjectPrototypeKeys
      ensures employees.Keys == old(employees).Keys + (if added then {id} else {})
      ensures added ==> employees[id] == Employee(name, departments, tasks)
      ensures forall k :: k in old(employees) ==> employees[k] == old(employees)[k]
    {
      if id in employees || id in ObjectPrototypeKeys {
        return false;
      }
      employees := employees[id := Employee(name, departments, tasks)];
      added := true;
    }
  }
}
