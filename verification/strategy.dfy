/**
 * Strategies: the interrupted flag every strategy carries, and the contract of getCandidates. The concrete serial
 * and parallel selection policies are not part of this model: candidate selection is a `Selector` supplied by the
 * caller and constrained only by `HonoursContract`.
 */
module Strategies {
  import opened Wrappers
  import opened Statuses
  import opened Elements
  import opened Parents
  import Interruptible

  /** The two policies the plan builders choose between. */
  datatype StrategyKind = Serial | Parallel

  datatype Strategy = Strategy(kind: StrategyKind, interrupted: bool)

  /** The name of a pod instance some work touches; dirty assets are claimed by work elsewhere. */
  type Asset = string

  /** What a strategy may look at when choosing among children: each child's status and the asset it works on. */
  datatype ChildView = ChildView(status: Status, asset: Option<Asset>)

  /** getCandidates, answering with a mask over the children it was given: true marks a candidate. */
  type Selector = (Strategy, seq<ChildView>, set<Asset>) -> seq<bool>

  /** A new strategy is not interrupted. */
  function NewStrategy(kind: StrategyKind): (s: Strategy)
    ensures s.kind == kind && !s.interrupted
  {
    Strategy(kind, false)
  }

  /**
   * Sets the flag to `interrupt` and returns whether the OLD flag already equalled it, that is, true exactly when
   * nothing changed. This is the code as written; the Strategy interface documents the opposite answer.
   */
  function SetStateReturnChanged(s: Strategy, interrupt: bool): (r: Flipped<Strategy>)
    ensures r.value.interrupted == interrupt && r.value.kind == s.kind
    ensures r.returned <==> s.interrupted == interrupt
  {
    Flipped(s.interrupted == interrupt, s.(interrupted := interrupt))
  }

  function StrategyInterrupt(s: Strategy): (r: Flipped<Strategy>)
    ensures r.value.interrupted && r.value.kind == s.kind
  {
    SetStateReturnChanged(s, true)
  }

  function StrategyProceed(s: Strategy): (r: Flipped<Strategy>)
    ensures !r.value.interrupted && r.value.kind == s.kind
  {
    SetStateReturnChanged(s, false)
  }

  /** Interrupting (or proceeding) twice leaves the same flag as doing it once, and the second call reports true. */
  lemma StrategyToggleIsIdempotent(s: Strategy)
    ensures StrategyInterrupt(StrategyInterrupt(s).value) == Flipped(true, StrategyInterrupt(s).value)
    ensures StrategyProceed(StrategyProceed(s).value) == Flipped(true, StrategyProceed(s).value)
  {
  }

  /**
   * The returned boolean never meets the documented interrupt/proceed contract: it answers "was the flag already
   * as requested", the negation of "did the call modify state".
   */
  lemma StrategyReturnIsInverted(s: Strategy)
    ensures StrategyInterrupt(s).returned == s.interrupted
    ensures StrategyProceed(s).returned == !s.interrupted
    ensures !Interruptible.HonoursInterrupt(s.interrupted, StrategyInterrupt(s).value.interrupted, StrategyInterrupt(s).returned)
    ensures !Interruptible.HonoursProceed(s.interrupted, StrategyProceed(s).value.interrupted, StrategyProceed(s).returned)
  {
  }

  /** Position by position, the one-item list holding `xs[i]` where the mask marks `i`, and the empty list elsewhere. */
  function Marked<T>(xs: seq<T>, mask: seq<bool>): (r: seq<seq<T>>)
    ensures |r| == |xs|
  {
    seq(|xs|, i requires 0 <= i < |xs| => if i < |mask| && mask[i] then [xs[i]] else [])
  }

  /** The elements of `xs` whose position is marked true in `mask`, in their original order. */
  function Select<T(!new)>(xs: seq<T>, mask: seq<bool>): (r: seq<T>)
    ensures r == Concat(Marked(xs, mask))
    ensures |r| <= |xs|
    ensures forall x :: x in r <==> exists i :: 0 <= i < |xs| && i < |mask| && mask[i] && xs[i] == x
    ensures (forall i :: 0 <= i < |mask| ==> !mask[i]) ==> r == []
    decreases |xs|
  {
    if xs == [] then []
    else if mask == [] then
      ConcatEmpty(Marked(xs, mask));
      []
    else
      assert Marked(xs, mask)[1..] == Marked(xs[1..], mask[1..]);
      var rest := Select(xs[1..], mask[1..]);
      assert forall x :: x in rest <==> exists i :: 1 <= i < |xs| && i < |mask| && mask[i] && xs[i] == x by {
        forall x | x in rest ensures exists i :: 1 <= i < |xs| && i < |mask| && mask[i] && xs[i] == x {
          var k :| 0 <= k < |xs[1..]| && k < |mask[1..]| && mask[1..][k] && xs[1..][k] == x;
          assert mask[k + 1] && xs[k + 1] == x;
        }
        forall x | exists i :: 1 <= i < |xs| && i < |mask| && mask[i] && xs[i] == x ensures x in rest {
          var i :| 1 <= i < |xs| && i < |mask| && mask[i] && xs[i] == x;
          assert mask[1..][i - 1] && xs[1..][i - 1] == x;
        }
      }
      (if mask[0] then [xs[0]] else []) + rest
  }

  /**
   * The Strategy.getCandidates contract for one call: no candidate works on a dirty asset, and an interrupted
   * strategy offers no candidates at all. (Being a sub-collection of the children is built into the mask.)
   */
  predicate HonoursContract(st: Strategy, views: seq<ChildView>, dirty: set<Asset>, mask: seq<bool>) {
    && (forall i :: 0 <= i < |views| && i < |mask| && mask[i] ==> views[i].asset.None? || views[i].asset.value !in dirty)
    && (st.interrupted ==> forall i :: 0 <= i < |mask| ==> !mask[i])
  }

  /** The candidates a lawful strategy returns: a sub-collection of the children, none dirty, none while interrupted. */
  function Candidates(sel: Selector, st: Strategy, views: seq<ChildView>, dirty: set<Asset>): (r: seq<ChildView>)
    requires HonoursContract(st, views, dirty, sel(st, views, dirty))
    ensures |r| <= |views|
    ensures forall c :: c in r ==> c in views
    ensures forall c :: c in r ==> c.asset.None? || c.asset.value !in dirty
    ensures st.interrupted ==> r == []
  {
    Select(views, sel(st, views, dirty))
  }
}
