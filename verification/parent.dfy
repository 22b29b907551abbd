/**
 * Behaviour shared by every element that owns children (ParentElement): the status aggregation and the
 * concatenation used to collect errors and changed elements from the children in child order.
 */
module Parents {
  import opened Wrappers
  import opened Statuses

  /**
   * getStatus of a parent, as a first-match precedence chain. `children` is None when the child list is null;
   * `hasErrors` says whether getErrors() (own errors and every descendant's) is non-empty; `interrupted` is the
   * strategy's flag; `candidates` are the statuses of the children the strategy offers for an empty dirty set.
   */
  function Aggregate(children: Option<seq<Status>>, hasErrors: bool, interrupted: bool, candidates: seq<Status>): (r: Status)
    ensures r != Prepared
    ensures r == Complete <==> children.Some? && !hasErrors && AllHaveStatus(Complete, children.value)
    ensures r == Pending ==> !interrupted && AnyHaveStatus(Pending, candidates)
    ensures r == Starting ==> !interrupted && AnyHaveStatus(Starting, candidates)
  {
    match children
    case None => Error
    case Some(kids) =>
      if hasErrors || AnyHaveStatus(Error, kids) then Error
      else if AllHaveStatus(Complete, kids) then Complete
      else if interrupted then Waiting
      else if AnyHaveStatus(Prepared, kids) then InProgress
      else if AnyHaveStatus(Waiting, candidates) then Waiting
      else if AnyHaveStatus(InProgress, candidates) then InProgress
      else if AnyHaveStatus(Complete, kids) && AnyHaveStatus(Pending, candidates) then InProgress
      else if AnyHaveStatus(Complete, kids) && AnyHaveStatus(Starting, candidates) then InProgress
      else if |candidates| > 0 && AnyHaveStatus(Pending, candidates) then Pending
      else if AnyHaveStatus(Waiting, kids) then Waiting
      else if AnyHaveStatus(Starting, candidates) then Starting
      else Error
  }

  /** A null child list is ERROR, whatever else holds: the check comes before every other rule. */
  lemma NullChildrenIsError(hasErrors: bool, interrupted: bool, candidates: seq<Status>)
    ensures Aggregate(None, hasErrors, interrupted, candidates) == Error
  {
  }

  /** Any error string in the subtree, or any child in ERROR, makes the parent ERROR. */
  lemma ErrorsPoisonParent(kids: seq<Status>, hasErrors: bool, interrupted: bool, candidates: seq<Status>)
    requires hasErrors || AnyHaveStatus(Error, kids)
    ensures Aggregate(Some(kids), hasErrors, interrupted, candidates) == Error
  {
  }

  /** With no errors, a parent whose children are all COMPLETE is COMPLETE even while interrupted. */
  lemma AllCompleteWinsOverInterrupt(kids: seq<Status>, candidates: seq<Status>)
    requires AllHaveStatus(Complete, kids)
    ensures Aggregate(Some(kids), false, true, candidates) == Complete
  {
  }

  /** With no errors and some child not COMPLETE, an interrupted parent is WAITING, never PENDING or IN_PROGRESS. */
  lemma InterruptedIncompleteIsWaiting(kids: seq<Status>, candidates: seq<Status>)
    requires !AnyHaveStatus(Error, kids) && !AllHaveStatus(Complete, kids)
    ensures Aggregate(Some(kids), false, true, candidates) == Waiting
  {
  }

  /**
   * When the candidates are drawn from the children, a WAITING parent is explained by its own interruption or by a
   * WAITING child, and an IN_PROGRESS parent by a child that is PREPARED, IN_PROGRESS, or COMPLETE beside a candidate
   * still to run.
   */
  lemma AggregateIsExplainedByChildren(kids: seq<Status>, hasErrors: bool, interrupted: bool, candidates: seq<Status>)
    requires forall c :: c in candidates ==> c in kids
    ensures Aggregate(Some(kids), hasErrors, interrupted, candidates) == Waiting ==>
      interrupted || AnyHaveStatus(Waiting, kids)
    ensures Aggregate(Some(kids), hasErrors, interrupted, candidates) == InProgress ==>
      !interrupted && (AnyHaveStatus(Prepared, kids) || AnyHaveStatus(InProgress, kids) || AnyHaveStatus(Complete, kids))
    ensures Aggregate(Some(kids), hasErrors, interrupted, candidates) == Pending ==> AnyHaveStatus(Pending, kids)
  {
    CandidateStatusIsChildStatus(Waiting, kids, candidates);
    CandidateStatusIsChildStatus(InProgress, kids, candidates);
    CandidateStatusIsChildStatus(Pending, kids, candidates);
  }

  /** A status some candidate has is a status some child has, when candidates are drawn from the children. */
  lemma CandidateStatusIsChildStatus(s: Status, kids: seq<Status>, candidates: seq<Status>)
    requires forall c :: c in candidates ==> c in kids
    ensures AnyHaveStatus(s, candidates) ==> AnyHaveStatus(s, kids)
  {
    if AnyHaveStatus(s, candidates) {
      var k :| 0 <= k < |candidates| && candidates[k] == s;
      assert candidates[k] in kids;
    }
  }

  /** The lists of `xss` one after another, as ParentElement collects its children's lists. */
  function Concat<T>(xss: seq<seq<T>>): (r: seq<T>)
    decreases |xss|
  {
    if xss == [] then [] else xss[0] + Concat(xss[1..])
  }

  /** Concatenation loses and invents nothing: an item is in the result exactly when it is in one of the lists. */
  lemma {:induction false} ConcatMembers<T>(xss: seq<seq<T>>, x: T)
    ensures x in Concat(xss) <==> exists i :: 0 <= i < |xss| && x in xss[i]
    decreases |xss|
  {
    if xss != [] {
      ConcatMembers(xss[1..], x);
      if x in Concat(xss[1..]) {
        var i :| 0 <= i < |xss[1..]| && x in xss[1..][i];
        assert x in xss[i + 1];
      }
      if exists i :: 0 <= i < |xss| && x in xss[i] {
        var i :| 0 <= i < |xss| && x in xss[i];
        if i > 0 {
          assert x in xss[1..][i - 1];
        }
      }
    }
  }

  /** The concatenation is empty exactly when every list is. */
  lemma {:induction false} ConcatEmpty<T>(xss: seq<seq<T>>)
    ensures Concat(xss) == [] <==> forall i :: 0 <= i < |xss| ==> xss[i] == []
    decreases |xss|
  {
    if xss != [] {
      ConcatEmpty(xss[1..]);
      assert forall i :: 1 <= i < |xss| ==> xss[i] == xss[1..][i - 1];
    }
  }
}
