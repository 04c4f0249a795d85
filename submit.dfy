/**
 * The rules of `POST /submit`: the verdict on a request given the stored
 * submissions, and the submissions that result. A Completed record is
 * final; an Attempted record may only move on to another status; a key
 * without a record gets a new record at the end.
 */
module SubmitRules {
  import opened Records

  /** What `/submit` answers: recorded, or one of its two rejections. */
  datatype Outcome = Recorded | AlreadyCompleted | MustMarkCompleted

  /** The verdict on `req`, decided by the first stored record of its key. */
  function Verdict(s: seq<Record>, req: Request): (o: Outcome)
    ensures o == AlreadyCompleted <==>
      exists i :: 0 <= i < |s| && Matches(s[i], req.employeeId, req.task) && s[i].status == Completed
        && forall j :: 0 <= j < i ==> !Matches(s[j], req.employeeId, req.task)
    ensures o == MustMarkCompleted <==>
      req.status == Attempted &&
      exists i :: 0 <= i < |s| && Matches(s[i], req.employeeId, req.task) && s[i].status == Attempted
        && forall j :: 0 <= j < i ==> !Matches(s[j], req.employeeId, req.task)
  {
    match FirstMatch(s, req.employeeId, req.task)
    case None => Recorded
    case Some(i) =>
      if s[i].status == Completed then AlreadyCompleted
      else if s[i].status == Attempted && req.status == Attempted then MustMarkCompleted
      else Recorded
  }

  /** The stored submissions after `/submit` has handled `req` at time `timestamp`. */
  function AfterSubmit(s: seq<Record>, req: Request, timestamp: string): (s': seq<Record>)
    ensures Verdict(s, req) != Recorded ==> s' == s
    ensures |s| <= |s'| <= |s| + 1
    ensures forall j :: 0 <= j < |s| ==> s'[j].employeeId == s[j].employeeId && s'[j].task == s[j].task
  {
    if Verdict(s, req) != Recorded then s
    else match FirstMatch(s, req.employeeId, req.task)
      case None => s + [NewRecord(req, timestamp)]
      case Some(i) => s[i := s[i].(status := req.status)]
  }

  /** The stored submissions after handling a run of requests in order. */
  function Replay(s: seq<Record>, events: seq<(Request, string)>): (r: seq<Record>)
    ensures |s| <= |r| <= |s| + |events|
    ensures forall j :: 0 <= j < |s| ==> r[j].employeeId == s[j].employeeId && r[j].task == s[j].task
    decreases |events|
  {
    if events == [] then s
    else Replay(AfterSubmit(s, events[0].0, events[0].1), events[1..])
  }

  /** A first record that is Completed rejects every request for its key and changes nothing. */
  lemma CompletedRejectsResubmit(s: seq<Record>, req: Request, timestamp: string, i: nat)
    requires i < |s| && Matches(s[i], req.employeeId, req.task) && s[i].status == Completed
    requires forall j :: 0 <= j < i ==> !Matches(s[j], req.employeeId, req.task)
    ensures Verdict(s, req) == AlreadyCompleted
    ensures AfterSubmit(s, req, timestamp) == s
  {
  }

  /** An Attempted first record rejects a second Attempted and changes nothing. */
  lemma AttemptedTwiceRejected(s: seq<Record>, req: Request, timestamp: string, i: nat)
    requires i < |s| && Matches(s[i], req.employeeId, req.task) && s[i].status == Attempted
    requires forall j :: 0 <= j < i ==> !Matches(s[j], req.employeeId, req.task)
    requires req.status == Attempted
    ensures Verdict(s, req) == MustMarkCompleted
    ensures AfterSubmit(s, req, timestamp) == s
  {
  }

  /** An accepted request for a key that has a record changes only that record's status. */
  lemma AcceptedUpdatesInPlace(s: seq<Record>, req: Request, timestamp: string, i: nat)
    requires i < |s| && Matches(s[i], req.employeeId, req.task)
    requires forall j :: 0 <= j < i ==> !Matches(s[j], req.employeeId, req.task)
    requires Verdict(s, req) == Recorded
    ensures s[i].status != Completed
    ensures !(s[i].status == Attempted && req.status == Attempted)
    ensures |AfterSubmit(s, req, timestamp)| == |s|
    ensures AfterSubmit(s, req, timestamp)[i] == s[i].(status := req.status)
    ensures forall j :: 0 <= j < |s| && j != i ==> AfterSubmit(s, req, timestamp)[j] == s[j]
  {
  }

  /** A request whose key has no record is accepted and appends exactly one record. */
  lemma UnmatchedAppends(s: seq<Record>, req: Request, timestamp: string)
    requires forall j :: 0 <= j < |s| ==> !Matches(s[j], req.employeeId, req.task)
    ensures Verdict(s, req) == Recorded
    ensures AfterSubmit(s, req, timestamp) == s + [NewRecord(req, timestamp)]
  {
  }

  /** `/submit` never creates a second record for a key. */
  lemma SubmitKeepsKeysUnique(s: seq<Record>, req: Request, timestamp: string)
    requires NoDuplicateKeys(s)
    ensures NoDuplicateKeys(AfterSubmit(s, req, timestamp))
  {
  }

  /** A submit whose status was decoded from a string stores only decoded statuses. */
  lemma SubmitKeepsStatusesDecoded(s: seq<Record>, req: Request, timestamp: string)
    requires AllDecoded(s) && Decoded(req.status)
    ensures AllDecoded(AfterSubmit(s, req, timestamp))
  {
  }

  /** Keys stay unique over any run of requests. */
  lemma {:induction false} ReplayKeepsKeysUnique(s: seq<Record>, events: seq<(Request, string)>)
    requires NoDuplicateKeys(s)
    ensures NoDuplicateKeys(Replay(s, events))
    decreases |events|
  {
    if events != [] {
      SubmitKeepsKeysUnique(s, events[0].0, events[0].1);
      ReplayKeepsKeysUnique(AfterSubmit(s, events[0].0, events[0].1), events[1..]);
    }
  }

  /** One request of any key leaves a Completed first record in place, still first for its key. */
  lemma SubmitKeepsCompleted(s: seq<Record>, req: Request, timestamp: string, i: nat)
    requires i < |s| && s[i].status == Completed
    requires forall j :: 0 <= j < i ==> !Matches(s[j], s[i].employeeId, s[i].task)
    ensures var s' := AfterSubmit(s, req, timestamp);
      i < |s'| && s'[i] == s[i] &&
      forall j :: 0 <= j < i ==> !Matches(s'[j], s[i].employeeId, s[i].task)
  {
  }

  /** Completed is absorbing: no later run of requests changes a Completed first record. */
  lemma {:induction false} CompletedIsFinal(s: seq<Record>, events: seq<(Request, string)>, i: nat)
    requires i < |s| && s[i].status == Completed
    requires forall j :: 0 <= j < i ==> !Matches(s[j], s[i].employeeId, s[i].task)
    ensures var s' := Replay(s, events);
      i < |s'| && s'[i] == s[i] &&
      forall j :: 0 <= j < i ==> !Matches(s'[j], s[i].employeeId, s[i].task)
    decreases |events|
  {
    if events != [] {
      SubmitKeepsCompleted(s, events[0].0, events[0].1, i);
      CompletedIsFinal(AfterSubmit(s, events[0].0, events[0].1), events[1..], i);
    }
  }

  /**
   * Employee E1 and task 11: a second Attempted is refused, Completed is then
   * recorded, and a second Completed is refused.
   */
  lemma {:induction false} AttemptedThenCompletedScenario(s: seq<Record>, name: string, dept: string, t1: string, t2: string)
    requires forall j :: 0 <= j < |s| ==> !Matches(s[j], "E1", "11")
    ensures var attempted := Request("E1", name, dept, "11", Attempted);
      var completed := Request("E1", name, dept, "11", Completed);
      var s1 := AfterSubmit(s, attempted, t1);
      var s2 := AfterSubmit(s1, completed, t2);
      && Verdict(s, attempted) == Recorded
      && Verdict(s1, attempted) == MustMarkCompleted
      && Verdict(s1, completed) == Recorded
      && Verdict(s2, completed) == AlreadyCompleted
      && s2 == s + [Record("E1", name, dept, "11", Completed, t1)]
  {
    var attempted := Request("E1", name, dept, "11", Attempted);
    var completed := Request("E1", name, dept, "11", Completed);
    UnmatchedAppends(s, attempted, t1);
    var s1 := AfterSubmit(s, attempted, t1);
    AttemptedTwiceRejected(s1, attempted, t1, |s|);
    AcceptedUpdatesInPlace(s1, completed, t2, |s|);
    var s2 := AfterSubmit(s1, completed, t2);
    assert s2 == s + [Record("E1", name, dept, "11", Completed, t1)];
    CompletedRejectsResubmit(s2, completed, t2, |s|);
  }
}
