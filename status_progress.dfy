/** How the operator console's transition table and the customer tracker's
    timeline fit together: every forward option moves an order exactly one
    step along the timeline, and following the forward options from any
    timeline status walks the rest of the timeline. */
module StatusProgress {
  import opened Orders
  import AdminPanel
  import OrderTracking

  /** Each option other than cancelling is the next step of the timeline. */
  lemma {:induction false} ForwardOptionAdvancesIndex(s: string, t: string)
    requires t in AdminPanel.StatusOptions(s) && t != "cancelled"
    ensures OrderTracking.StatusIndex(t) == OrderTracking.StatusIndex(s) + 1
  {
    OrderTracking.StatusIndexValues();
    var st := Parse(s).value;
    assert s == Name(st);
    match st {
      case Pending => assert t == "confirmed";
      case Confirmed => assert t == "preparing";
      case Preparing => assert t == "ready";
      case Ready => assert t == "out-for-delivery";
      case OutForDelivery => assert t == "delivered";
      case Delivered =>
      case Cancelled =>
    }
  }

  /** The forward option of a status, if it has one. */
  function Successor(s: string): (r: Option<string>)
    ensures r.Some? ==> r.value in AdminPanel.StatusOptions(s) && r.value != "cancelled"
    ensures r.None? ==> AdminPanel.StatusOptions(s) == []
  {
    AdminPanel.UniqueForwardOption(s);
    var forward := AdminPanel.ForwardOptions(s);
    if forward == [] then None else Some(forward[0])
  }

  /** The statuses visited from `s` by always taking the forward option,
      `s` itself first. */
  function ForwardPath(s: string): (path: seq<string>)
    ensures path != [] && path[0] == s
    decreases 6 - OrderTracking.StatusIndex(s)
  {
    match Successor(s)
    case None => [s]
    case Some(t) =>
      ForwardOptionAdvancesIndex(s, t);
      [s] + ForwardPath(t)
  }

  /** From any status of the timeline, the forward options visit exactly the
      remaining steps of the timeline, in order, and stop at `delivered`. */
  lemma {:induction false} ForwardPathFollowsTimeline(k: nat)
    requires k < |OrderTracking.StatusSteps|
    ensures ForwardPath(OrderTracking.StatusSteps[k]) == OrderTracking.StatusSteps[k..]
    decreases |OrderTracking.StatusSteps| - k
  {
    var steps := OrderTracking.StatusSteps;
    if k == |steps| - 1 {
      LastStepHasNoSuccessor();
    } else {
      SuccessorOnTimeline(k);
      ForwardPathFollowsTimeline(k + 1);
      ForwardPathStep(steps[k], steps[k + 1]);
      assert steps[k..] == [steps[k]] + steps[k + 1..];
    }
  }

  lemma ForwardPathStep(s: string, t: string)
    requires Successor(s) == Some(t)
    ensures ForwardPath(s) == [s] + ForwardPath(t)
  {
  }

  /** Each timeline status but the last has the next one as its forward option. */
  lemma SuccessorOnTimeline(k: nat)
    requires k + 1 < |OrderTracking.StatusSteps|
    ensures Successor(OrderTracking.StatusSteps[k]) == Some(OrderTracking.StatusSteps[k + 1])
  {
    var s := OrderTracking.StatusSteps[k];
    var t := Successor(s).value;
    ForwardOptionAdvancesIndex(s, t);
    OrderTracking.StatusIndexValues();
  }

  /** The last timeline status, `delivered`, has no forward option. */
  lemma LastStepHasNoSuccessor()
    ensures ForwardPath(OrderTracking.StatusSteps[|OrderTracking.StatusSteps| - 1]) == ["delivered"]
  {
    assert OrderTracking.StatusSteps[5] == "delivered";
    assert AdminPanel.StatusOptions("delivered") == [];
  }

  /** Starting from `pending`, the forward options visit `confirmed`,
      `preparing`, `ready`, `out-for-delivery` and `delivered`, in that order. */
  lemma FullForwardPath()
    ensures ForwardPath("pending") == ["pending", "confirmed", "preparing", "ready", "out-for-delivery", "delivered"]
  {
    ForwardPathFollowsTimeline(0);
  }
}
