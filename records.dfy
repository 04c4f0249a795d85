/**
 * The records the submission tracker keeps in memory: the status a task
 * can be in, a request posted to `/submit`, the stored submission record,
 * an employee entry, and the search for the record of one
 * (employeeId, task) key.
 */
module Records {

  datatype Option<T> = None | Some(value: T)

  /** A status is any string; only "Attempted" and "Completed" mean something to the tracker. */
  datatype Status = Attempted | Completed | Other(text: string)

  /** The status a stored string stands for. */
  function ParseStatus(text: string): (st: Status)
    ensures Decoded(st)
  {
    if text == "Completed" then Completed
    else if text == "Attempted" then Attempted
    else Other(text)
  }

  /** The string a status is stored as. */
  function StatusText(st: Status): string
  {
    match st
    case Completed => "Completed"
    case Attempted => "Attempted"
    case Other(text) => text
  }

  /** A status as decoding produces it: `Other` never holds the two meaningful strings. */
  predicate Decoded(st: Status)
  {
    st.Other? ==> st.text != "Completed" && st.text != "Attempted"
  }

  /** Every stored status is one that decoding produces. */
  ghost predicate AllDecoded(s: seq<Record>)
  {
    forall i :: 0 <= i < |s| ==> Decoded(s[i].status)
  }

  /** Decoding and storing a status are inverse to each other. */
  lemma StatusRoundTrip(text: string, st: Status)
    requires Decoded(st)
    ensures StatusText(ParseStatus(text)) == text
    ensures ParseStatus(StatusText(st)) == st
  {
  }

  /**
   * The property names every plain JavaScript object inherits from
   * `Object.prototype`. Looking one up in an object without an own
   * property of that name yields the inherited member, a truthy value;
   * assigning a string to `__proto__` is ignored.
   */
  const ObjectPrototypeKeys: set<string> := {
    "constructor", "__proto__", "toString", "toLocaleString", "valueOf",
    "hasOwnProperty", "isPrototypeOf", "propertyIsEnumerable",
    "__defineGetter__", "__defineSetter__", "__lookupGetter__", "__lookupSetter__"
  }

  /** The body of a `/submit` request. */
  datatype Request = Request(
    employeeId: string,
    employeeName: string,
    department: string,
    task: string,
    status: Status)

  /** A stored submission: the request body plus the time it was first recorded. */
  datatype Record = Record(
    employeeId: string,
    employeeName: string,
    department: string,
    task: string,
    status: Status,
    timestamp: string)

  /** An entry of the employee table. */
  datatype Employee = Employee(name: string, departments: seq<string>, tasks: seq<string>)

  /** The entry served for an id that is not in the employee table. */
  const NoEmployee := Employee("", [], [])

  /** The record appended for a request that matched no stored record. */
  function NewRecord(req: Request, timestamp: string): (r: Record)
    ensures Matches(r, req.employeeId, req.task) && r.status == req.status && r.timestamp == timestamp
  {
    Record(req.employeeId, req.employeeName, req.department, req.task, req.status, timestamp)
  }

  /** Whether a record belongs to the key (employeeId, task). */
  predicate Matches(r: Record, employeeId: string, task: string)
  {
    r.employeeId == employeeId && r.task == task
  }

  /** The index of the first record of the key, as `Array.prototype.find` meets it. */
  function FirstMatch(s: seq<Record>, employeeId: string, task: string): (r: Option<nat>)
    ensures r.Some? ==> r.value < |s| && Matches(s[r.value], employeeId, task)
    ensures r.Some? ==> forall j :: 0 <= j < r.value ==> !Matches(s[j], employeeId, task)
    ensures r.None? <==> forall j :: 0 <= j < |s| ==> !Matches(s[j], employeeId, task)
  {
    if s == [] then None
    else if Matches(s[0], employeeId, task) then Some(0)
    else match FirstMatch(s[1..], employeeId, task)
      case None => None
      case Some(k) => Some(k + 1)
  }

  /** No two records share an (employeeId, task) key. */
  ghost predicate NoDuplicateKeys(s: seq<Record>)
  {
    forall i, j :: 0 <= i < j < |s| ==> !Matches(s[j], s[i].employeeId, s[i].task)
  }

  /** While keys are unique, two records of one key are the same record. */
  lemma SameKeySameIndex(s: seq<Record>, employeeId: string, task: string, a: nat, b: nat)
    requires NoDuplicateKeys(s)
    requires a < |s| && Matches(s[a], employeeId, task)
    requires b < |s| && Matches(s[b], employeeId, task)
    ensures a == b
  {
  }
}
