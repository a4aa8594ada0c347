/** The customer tracker: which order id is tracked, how a typed id is
    cleaned, the tracker's own state across fetches, and the progress
    timeline computed from the order's status. */
module OrderTracking {
  import opened Orders

  // ---------------------------------------------------------------------------
  // Position of a status in the forward sequence
  // ---------------------------------------------------------------------------

  /** The six statuses an undisturbed order passes through, in order. */
  const StatusSteps: seq<string> := ["pending", "confirmed", "preparing", "ready", "out-for-delivery", "delivered"]

  /** The first position of `s` in `steps`, or -1 when it does not occur. */
  function FindIndex(steps: seq<string>, s: string): (r: int)
    ensures -1 <= r < |steps|
    ensures r == -1 <==> s !in steps
    ensures r >= 0 ==> steps[r] == s && s !in steps[..r]
    decreases |steps|
  {
    if steps == [] then -1
    else if steps[0] == s then 0
    else
      var k := FindIndex(steps[1..], s);
      if k == -1 then -1 else k + 1
  }

  /** The position of a status in the forward sequence; -1 for `cancelled`
      and for any string that is not a forward status. */
  function StatusIndex(status: string): (r: int)
    ensures -1 <= r < |StatusSteps|
    ensures r == -1 <==> status !in StatusSteps
    ensures r >= 0 ==> StatusSteps[r] == status
  {
    FindIndex(StatusSteps, status)
  }

  /** The value of the index on each of the seven statuses. */
  lemma {:induction false} StatusIndexValues()
    ensures StatusIndex("pending") == 0
    ensures StatusIndex("confirmed") == 1
    ensures StatusIndex("preparing") == 2
    ensures StatusIndex("ready") == 3
    ensures StatusIndex("out-for-delivery") == 4
    ensures StatusIndex("delivered") == 5
    ensures StatusIndex("cancelled") == -1
  {
    forall k | 0 <= k < |StatusSteps|
      ensures StatusIndex(StatusSteps[k]) == k
    {
      TimelinePositions(StatusSteps[k]);
    }
    assert "cancelled" !in StatusSteps;
  }

  // ---------------------------------------------------------------------------
  // Trimming a typed order id
  // ---------------------------------------------------------------------------

  /** The characters `String.prototype.trim` strips: white space (tab,
      vertical tab, form feed, byte order mark and the space separators) and
      line terminators. */
  predicate IsSpace(c: char)
  {
    || c == '\t' || c == '\n' || c == '\U{000B}' || c == '\U{000C}' || c == '\r'
    || c == ' ' || c == '\U{00A0}' || c == '\U{1680}'
    || ('\U{2000}' <= c <= '\U{200A}')
    || c == '\U{2028}' || c == '\U{2029}' || c == '\U{202F}' || c == '\U{205F}'
    || c == '\U{3000}' || c == '\U{FEFF}'
  }

  predicate AllSpace(s: string)
  {
    forall k :: 0 <= k < |s| ==> IsSpace(s[k])
  }

  /** `s` without its leading white space. */
  function TrimStart(s: string): (r: string)
    ensures |r| <= |s| && r == s[|s| - |r|..]
    ensures AllSpace(s[..|s| - |r|])
    ensures r == [] || !IsSpace(r[0])
    decreases |s|
  {
    if s != [] && IsSpace(s[0]) then
      var r := TrimStart(s[1..]);
      assert s[..|s| - |r|] == [s[0]] + s[1..][..|s| - 1 - |r|];
      r
    else s
  }

  /** `s` without its trailing white space. */
  function TrimEnd(s: string): (r: string)
    ensures |r| <= |s| && r == s[..|r|]
    ensures AllSpace(s[|r|..])
    ensures r == [] || !IsSpace(r[|r| - 1])
    decreases |s|
  {
    if s != [] && IsSpace(s[|s| - 1]) then
      var r := TrimEnd(s[..|s| - 1]);
      assert s[|r|..] == s[..|s| - 1][|r|..] + [s[|s| - 1]];
      r
    else s
  }

  /** `s` without leading and trailing white space. */
  function Trim(s: string): (r: string)
    ensures r == [] || (!IsSpace(r[0]) && !IsSpace(r[|r| - 1]))
    ensures r == [] <==> AllSpace(s)
  {
    TrimEnd(TrimStart(s))
  }

  /** Trimming recovers any text with non-blank ends from between any two
      runs of white space. */
  lemma {:induction false} TrimRecoversCore(before: string, core: string, after: string)
    requires AllSpace(before) && AllSpace(after)
    requires core == [] || (!IsSpace(core[0]) && !IsSpace(core[|core| - 1]))
    ensures Trim(before + core + after) == core
  {
    var s := before + core + after;
    assert s == before + (core + after);
    TrimStartOfSpaces(before, core + after);
    if core == [] {
      assert core + after == after;
      TrimStartAllSpace(after);
      assert TrimStart(s) == [];
    } else {
      assert (core + after)[0] == core[0];
      assert TrimStart(s) == core + after;
      TrimEndOfSpaces(core, after);
    }
  }

  lemma {:induction false} TrimStartOfSpaces(spaces: string, rest: string)
    requires AllSpace(spaces)
    ensures TrimStart(spaces + rest) == TrimStart(rest)
    decreases |spaces|
  {
    if spaces != [] {
      assert (spaces + rest)[1..] == spaces[1..] + rest;
      TrimStartOfSpaces(spaces[1..], rest);
    } else {
      assert spaces + rest == rest;
    }
  }

  lemma {:induction false} TrimStartAllSpace(s: string)
    requires AllSpace(s)
    ensures TrimStart(s) == []
  {
    TrimStartOfSpaces(s, []);
    assert s + [] == s;
  }

  lemma {:induction false} TrimEndOfSpaces(rest: string, spaces: string)
    requires AllSpace(spaces)
    requires rest == [] || !IsSpace(rest[|rest| - 1])
    ensures TrimEnd(rest + spaces) == rest
    decreases |spaces|
  {
    if spaces != [] {
      var shorter := spaces[..|spaces| - 1];
      assert (rest + spaces)[..|rest + spaces| - 1] == rest + shorter;
      TrimEndOfSpaces(rest, shorter);
    } else {
      assert rest + spaces == rest;
    }
  }

  /** Trimming twice is trimming once. */
  lemma TrimIdempotent(s: string)
    ensures Trim(Trim(s)) == Trim(s)
  {
    TrimRecoversCore([], Trim(s), []);
    assert [] + Trim(s) + [] == Trim(s);
  }

  // ---------------------------------------------------------------------------
  // Which order to track
  // ---------------------------------------------------------------------------

  /** A source that holds a usable id: present and not the empty string. */
  predicate Present(source: Option<string>)
  {
    source.Some? && source.value != ""
  }

  /** The id to track on entering the page: the `orderId` URL parameter,
      else the `orderId` of the navigation state, else the stored id; empty
      strings count as absent. */
  function ChooseOrderId(idFromUrl: Option<string>, idFromState: Option<string>, idFromStorage: Option<string>): (r: Option<string>)
    ensures r.Some? <==> Present(idFromUrl) || Present(idFromState) || Present(idFromStorage)
    ensures r.Some? ==> r.value != "" && (r == idFromUrl || r == idFromState || r == idFromStorage)
    ensures Present(idFromUrl) ==> r == idFromUrl
    ensures !Present(idFromUrl) && Present(idFromState) ==> r == idFromState
  {
    if Present(idFromUrl) then idFromUrl
    else if Present(idFromState) then idFromState
    else if Present(idFromStorage) then idFromStorage
    else None
  }

  /** Once an id has been chosen and stored, reloading the page without a URL
      parameter or navigation state tracks the same order again. */
  lemma ReloadResumesTracking(idFromUrl: Option<string>, idFromState: Option<string>, idFromStorage: Option<string>)
    requires ChooseOrderId(idFromUrl, idFromState, idFromStorage).Some?
    ensures var chosen := ChooseOrderId(idFromUrl, idFromState, idFromStorage);
      ChooseOrderId(None, None, chosen) == chosen
  {
  }

  // ---------------------------------------------------------------------------
  // Progress timeline
  // ---------------------------------------------------------------------------

  /** One step of the timeline as shown: its status key, its caption and its two flags. */
  datatype StepView = StepView(key: string, caption: string, isCompleted: bool, isCurrent: bool)

  const StepLabels: seq<string> := ["Order Placed", "Confirmed", "Preparing", "Ready", "Out for Delivery", "Delivered"]

  /** The timeline for an order whose status is `status`: a step is completed
      when the order has reached it, and current when the order is at it. */
  function StepViews(status: string): (r: seq<StepView>)
    ensures |r| == |StatusSteps|
    ensures forall i :: 0 <= i < |r| ==> r[i].key == StatusSteps[i] && r[i].caption == StepLabels[i]
    ensures forall i :: 0 <= i < |r| ==> (r[i].isCurrent <==> StatusSteps[i] == status)
    ensures forall i :: 0 <= i < |r| ==> (r[i].isCompleted <==> status in StatusSteps[i..])
  {
    TimelinePositions(status);
    var currentStatusIndex := StatusIndex(status);
    seq(|StatusSteps|, index requires 0 <= index < |StatusSteps| =>
      StepView(StatusSteps[index], StepLabels[index], index <= currentStatusIndex, index == currentStatusIndex))
  }

  /** For a forward status exactly one step is current, and the completed
      steps are exactly those up to and including it. */
  lemma {:induction false} ForwardStatusTimeline(status: string)
    requires status in StatusSteps
    ensures exists i :: 0 <= i < |StatusSteps| && StepViews(status)[i].isCurrent
    ensures forall i, j :: 0 <= i < |StatusSteps| && 0 <= j < |StatusSteps| && StepViews(status)[i].isCurrent && StepViews(status)[j].isCurrent ==> i == j
    ensures forall i :: 0 <= i < |StatusSteps| ==> (StepViews(status)[i].isCompleted <==> i <= StatusIndex(status))
  {
    var k := StatusIndex(status);
    assert StepViews(status)[k].isCurrent;
    forall i, j | 0 <= i < |StatusSteps| && 0 <= j < |StatusSteps| && StepViews(status)[i].isCurrent && StepViews(status)[j].isCurrent
      ensures i == j
    {
      StepsDistinct(i, j);
    }
  }

  /** For `cancelled` or any other status outside the sequence, no step is
      current and none is completed. */
  lemma OffSequenceTimeline(status: string)
    requires status !in StatusSteps
    ensures forall i :: 0 <= i < |StatusSteps| ==> !StepViews(status)[i].isCurrent && !StepViews(status)[i].isCompleted
  {
  }

  /** A step's position compared with the status's index tells whether the
      order is at that step, and whether it has reached it. */
  lemma TimelinePositions(status: string)
    ensures forall i :: 0 <= i < |StatusSteps| ==> (StatusSteps[i] == status <==> i == StatusIndex(status))
    ensures forall i :: 0 <= i < |StatusSteps| ==> (status in StatusSteps[i..] <==> i <= StatusIndex(status))
  {
    var k := StatusIndex(status);
    forall i | 0 <= i < |StatusSteps|
      ensures StatusSteps[i] == status <==> i == k
    {
      if StatusSteps[i] == status {
        StepsDistinct(i, k);
      }
    }
    forall i | 0 <= i < |StatusSteps|
      ensures status in StatusSteps[i..] <==> i <= k
    {
      var later := StatusSteps[i..];
      if status in later {
        var m :| 0 <= m < |later| && later[m] == status;
        StepsDistinct(i + m, k);
      }
      if i <= k {
        assert later[k - i] == status;
      }
    }
  }

  lemma StepsDistinct(i: int, j: int)
    requires 0 <= i < |StatusSteps| && 0 <= j < |StatusSteps|
    requires StatusSteps[i] == StatusSteps[j]
    ensures i == j
  {
  }

  // ---------------------------------------------------------------------------
  // The tracker's state
  // ---------------------------------------------------------------------------

  class Tracker {
    var order: Option<Order>
    var loading: bool
    var orderId: string
    /** The browser's stored `lastOrderId`. */
    var storedId: Option<string>
    /** The ids passed to the get-order call so far, oldest first. */
    ghost var requests: seq<string>

    /** No order is ever requested with an empty id. */
    ghost predicate Valid()
      reads this
    {
      forall i :: 0 <= i < |requests| ==> requests[i] != ""
    }

    constructor (stored: Option<string>)
      ensures Valid()
      ensures order == None && loading && orderId == "" && storedId == stored && requests == []
    {
      order := None;
      loading := true;
      orderId := "";
      storedId := stored;
      requests := [];
    }

    /** Fetches one order: its record on success, no order on failure. */
    method FetchOrder(id: string, response: Response<Order>)
      requires Valid() && id != ""
      modifies this
      ensures Valid()
      ensures requests == old(requests) + [id]
      ensures order == (if response.Ok? then Some(response.data) else None)
      ensures !loading
      ensures orderId == old(orderId) && storedId == old(storedId)
    {
      loading := true;
      requests := requests + [id];
      match response {
        case Ok(data) => order := Some(data);
        case Failed(_) => order := None;
      }
      loading := false;
    }

    /** Entering the page (or a change of location): track the chosen id,
        remember it in storage and fetch it; with no id, just stop loading. */
    method EnterPage(idFromUrl: Option<string>, idFromState: Option<string>, response: Response<Order>)
      requires Valid()
      modifies this
      ensures Valid()
      ensures var chosen := ChooseOrderId(idFromUrl, idFromState, old(storedId));
        && (chosen.Some? ==>
              && orderId == chosen.value && storedId == chosen
              && requests == old(requests) + [chosen.value]
              && order == (if response.Ok? then Some(response.data) else None))
        && (chosen.None? ==>
              && orderId == old(orderId) && storedId == old(storedId)
              && requests == old(requests) && order == old(order))
      ensures !loading
    {
      var finalOrderId := ChooseOrderId(idFromUrl, idFromState, storedId);
      if finalOrderId.Some? {
        orderId := finalOrderId.value;
        storedId := finalOrderId;
        FetchOrder(finalOrderId.value, response);
      } else {
        loading := false;
      }
    }

    /** The id field's text changes as the customer types. */
    method EditOrderId(text: string)
      requires Valid()
      modifies this
      ensures Valid()
      ensures orderId == text
      ensures order == old(order) && loading == old(loading)
      ensures storedId == old(storedId) && requests == old(requests)
    {
      orderId := text;
    }

    /** Submitting the form: a blank id does nothing; otherwise the trimmed
        id is stored and fetched, while the field keeps the text as typed. */
    method HandleTrackOrder(response: Response<Order>)
      requires Valid()
      modifies this
      ensures Valid()
      ensures orderId == old(orderId)
      ensures Trim(orderId) == [] ==>
        order == old(order) && loading == old(loading) && storedId == old(storedId) && requests == old(requests)
      ensures Trim(orderId) != [] ==>
        && storedId == Some(Trim(orderId))
        && requests == old(requests) + [Trim(orderId)]
        && order == (if response.Ok? then Some(response.data) else None)
        && !loading
    {
      var trimmed := Trim(orderId);
      if trimmed != [] {
        storedId := Some(trimmed);
        FetchOrder(trimmed, response);
      }
    }

    /** A tick of the 10-second refresh: re-fetch the id in the field, as
        typed, unless the field is empty. */
    method PollOrder(response: Response<Order>)
      requires Valid()
      modifies this
      ensures Valid()
      ensures orderId == old(orderId) && storedId == old(storedId)
      ensures orderId == "" ==> order == old(order) && loading == old(loading) && requests == old(requests)
      ensures orderId != "" ==>
        && requests == old(requests) + [orderId]
        && order == (if response.Ok? then Some(response.data) else None)
        && !loading
    {
      if orderId != "" {
        FetchOrder(orderId, response);
      }
    }
  }
}
