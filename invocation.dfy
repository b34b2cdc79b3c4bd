/** The client's invocation page (`ui.js`): Send asks the center for
    candidates, measures them, allocates, and invokes the allocated instance;
    End releases the allocation held in `currentAllocationId`. Every
    external call is recorded, and its reply is an input. */
module Invocation {
  import opened Results
  import opened Text
  import opened JsValues
  import opened Probe

  const DEFAULT_SERVICE: string := "LLM1"
  const EMPTY_INPUT: string := "empty input"
  const NO_CANDIDATES: string := "no candidates"
  const NO_ALLOCATION: string := "no allocation"
  const STATUS_CANDIDATES: string := "candidates..."
  const STATUS_PING: string := "ping..."
  const STATUS_ALLOCATE: string := "allocate..."
  const STATUS_RELEASED: string := "released"

  /** An external call of the page. */
  datatype Call =
    | CandidatesCall(serviceId: string)
    | MeasureCall(candidates: seq<JsCandidate>)
    | AllocateCall(serviceId: string, measurements: seq<JsMeasurement>)
    | InvokeCall(addr: Option<string>, serviceId: string, text: string)
    | ReleaseCall(allocationId: string)

  /** The allocator's reply: the fields the page keeps. */
  datatype Allocation = Allocation(allocationId: Option<string>, addr: Option<string>)

  /** The site's reply to an invocation, with its `JSON.stringify`
      rendering. */
  datatype InvokeReply = InvokeReply(Output: Option<string>, InstanceID: Option<string>, json: string)

  /** How each call of one Send settles: the candidates reply, the page
      origin and network for the pings, the allocation and the invocation. */
  datatype SendReplies = SendReplies(candidates: Result<Option<seq<JsCandidate>>, JsError>,
                                     origin: string, net: nat -> NetOutcome,
                                     allocate: Result<Allocation, JsError>,
                                     invoke: Result<InvokeReply, JsError>)

  /** What the page shows and holds: the two page globals, the `err` and
      `status` texts, whether End is disabled, the output box, and the calls
      made so far. */
  datatype PageState = PageState(allocationId: Option<string>, chosenAddr: Option<string>,
                                 err: string, status: string, endDisabled: bool,
                                 output: string, calls: seq<Call>)

  /** The `catch` of both handlers: the error's text, and (for Send) an
      empty status. */
  function Failed(st: PageState, e: JsError): PageState
  {
    st.(err := ErrorText(e), status := "")
  }

  /** The candidates a Send measures: `candData.candidates || []`. */
  function Listed(rp: SendReplies): seq<JsCandidate>
    requires rp.candidates.Ok?
  {
    CandidateList(rp.candidates.value)
  }

  /** The Send handler, call by call: it clears the error, and a blank
      input stops it before any call. */
  function Send(st: PageState, serviceId: string, userInput: string, rp: SendReplies): PageState
  {
    var st1 := st.(err := "", status := STATUS_CANDIDATES);
    var text := Trim(userInput, JsSpace);
    if text == "" then st1.(err := EMPTY_INPUT)
    else AfterCandidates(st1.(calls := st1.calls + [CandidatesCall(serviceId)]), serviceId, text, rp)
  }

  /** Once the candidates are asked for: an empty list stops the handler. */
  function AfterCandidates(st: PageState, serviceId: string, text: string, rp: SendReplies): PageState
  {
    if rp.candidates.Err? then Failed(st, rp.candidates.error)
    else if |Listed(rp)| == 0 then st.(err := NO_CANDIDATES)
    else AfterMeasure(st.(status := STATUS_PING, calls := st.calls + [MeasureCall(Listed(rp))]), serviceId, text, rp)
  }

  /** Once the candidates are measured. */
  function AfterMeasure(st: PageState, serviceId: string, text: string, rp: SendReplies): PageState
    requires rp.candidates.Ok?
  {
    var measured := Measured(rp.origin, Some(Listed(rp)), rp.net);
    if measured.Err? then Failed(st, measured.error)
    else AfterAllocate(st.(status := STATUS_ALLOCATE, calls := st.calls + [AllocateCall(serviceId, measured.value)]),
                       serviceId, text, rp)
  }

  /** Once the allocator has answered: a successful allocation is held
      before the invocation is attempted. */
  function AfterAllocate(st: PageState, serviceId: string, text: string, rp: SendReplies): PageState
  {
    if rp.allocate.Err? then Failed(st, rp.allocate.error)
    else
      var a := rp.allocate.value;
      AfterInvoke(st.(allocationId := a.allocationId, chosenAddr := a.addr, endDisabled := false,
                      status := "invoke " + Show(a.addr) + "...",
                      calls := st.calls + [InvokeCall(a.addr, serviceId, text)]), rp)
  }

  /** Once the site has answered. */
  function AfterInvoke(st: PageState, rp: SendReplies): PageState
  {
    if rp.invoke.Err? then Failed(st, rp.invoke.error)
    else
      var resp := rp.invoke.value;
      st.(output := if Truthy(resp.Output) then resp.Output.value else resp.json,
          status := "done (instance=" + OrEmpty(resp.InstanceID) + ")")
  }

  /** The End handler. */
  function End(st: PageState, release: Option<JsError>): PageState
  {
    var st1 := st.(err := "");
    if !Truthy(st.allocationId) then st1.(err := NO_ALLOCATION)
    else
      var st2 := st1.(calls := st1.calls + [ReleaseCall(st.allocationId.value)]);
      if release.Some? then st2.(err := ErrorText(release.value))
      else st2.(allocationId := None, chosenAddr := None, endDisabled := true, status := STATUS_RELEASED)
  }

  /** A Send gets as far as a successful allocation. */
  predicate Allocates(userInput: string, rp: SendReplies)
  {
    !Blank(userInput, JsSpace) && rp.candidates.Ok? && |Listed(rp)| > 0
    && Measured(rp.origin, Some(Listed(rp)), rp.net).Ok? && rp.allocate.Ok?
  }

  /** The allocation fields and End's state. */
  predicate SameHold(a: PageState, b: PageState)
  {
    a.allocationId == b.allocationId && a.chosenAddr == b.chosenAddr && a.endDisabled == b.endDisabled
  }

  /** A blank input sets "empty input" and makes no call. */
  lemma SendBlankInput(st: PageState, serviceId: string, userInput: string, rp: SendReplies)
    requires Blank(userInput, JsSpace)
    ensures var r := Send(st, serviceId, userInput, rp);
            r.err == EMPTY_INPUT && r.calls == st.calls && SameHold(r, st)
  {
    TrimEmptyIffBlank(userInput, JsSpace);
  }

  /** No candidates sets "no candidates" after the one candidates call:
      nothing is measured or allocated and the hold is unchanged. */
  lemma SendNoCandidates(st: PageState, serviceId: string, userInput: string, rp: SendReplies)
    requires !Blank(userInput, JsSpace)
    requires rp.candidates == Ok(None) || rp.candidates == Ok(Some([]))
    ensures var r := Send(st, serviceId, userInput, rp);
            r.err == NO_CANDIDATES && r.calls == st.calls + [CandidatesCall(serviceId)] && SameHold(r, st)
  {
    TrimEmptyIffBlank(userInput, JsSpace);
  }

  /** The hold changes exactly when the allocation succeeds, and then it is
      the allocation returned, End is enabled, and the invocation goes to
      exactly the returned address with the trimmed input. */
  lemma SendHoldsAllocation(st: PageState, serviceId: string, userInput: string, rp: SendReplies)
    ensures var r := Send(st, serviceId, userInput, rp);
            !Allocates(userInput, rp) ==> SameHold(r, st)
    ensures var r := Send(st, serviceId, userInput, rp);
            Allocates(userInput, rp) ==>
              var a := rp.allocate.value;
              r.allocationId == a.allocationId && r.chosenAddr == a.addr && !r.endDisabled
              && |r.calls| == |st.calls| + 4
              && r.calls[|st.calls| + 2] == AllocateCall(serviceId, Measured(rp.origin, Some(Listed(rp)), rp.net).value)
              && r.calls[|st.calls| + 3] == InvokeCall(a.addr, serviceId, Trim(userInput, JsSpace))
  {
    TrimEmptyIffBlank(userInput, JsSpace);
    var text := Trim(userInput, JsSpace);
    if text != "" && rp.candidates.Ok? && |Listed(rp)| > 0 {
      var st2 := st.(err := "", status := STATUS_CANDIDATES, calls := st.calls + [CandidatesCall(serviceId)]);
      var st3 := st2.(status := STATUS_PING, calls := st2.calls + [MeasureCall(Listed(rp))]);
      var measured := Measured(rp.origin, Some(Listed(rp)), rp.net);
      assert Send(st, serviceId, userInput, rp) == AfterMeasure(st3, serviceId, text, rp);
      if measured.Ok? {
        var st4 := st3.(status := STATUS_ALLOCATE, calls := st3.calls + [AllocateCall(serviceId, measured.value)]);
        assert Send(st, serviceId, userInput, rp) == AfterAllocate(st4, serviceId, text, rp);
        AllocateHolds(st4, serviceId, text, rp);
      }
    }
  }

  /** Past the allocator: a failed allocation changes neither the hold nor
      the calls; a successful one is held and invoked. */
  lemma AllocateHolds(st: PageState, serviceId: string, text: string, rp: SendReplies)
    ensures rp.allocate.Err? ==>
              var r := AfterAllocate(st, serviceId, text, rp);
              SameHold(r, st) && r.calls == st.calls
    ensures rp.allocate.Ok? ==>
              var r, a := AfterAllocate(st, serviceId, text, rp), rp.allocate.value;
              r.allocationId == a.allocationId && r.chosenAddr == a.addr && !r.endDisabled
              && r.calls == st.calls + [InvokeCall(a.addr, serviceId, text)]
  {
  }

  /** A failed invocation keeps the allocation held and End enabled. */
  lemma SendInvokeFails(st: PageState, serviceId: string, userInput: string, rp: SendReplies)
    requires Allocates(userInput, rp) && rp.invoke.Err?
    ensures var r := Send(st, serviceId, userInput, rp);
            r.allocationId == rp.allocate.value.allocationId && r.chosenAddr == rp.allocate.value.addr
            && !r.endDisabled && r.err == ErrorText(rp.invoke.error) && r.status == ""
  {
    TrimEmptyIffBlank(userInput, JsSpace);
  }

  /** `r` has the calls of `st` and then only calls that are not
      releases. */
  predicate ExtendsWithoutRelease(st: PageState, r: PageState)
  {
    |r.calls| >= |st.calls| && r.calls[..|st.calls|] == st.calls
    && forall k :: |st.calls| <= k < |r.calls| ==> !r.calls[k].ReleaseCall?
  }

  lemma ExtendsTransitive(a: PageState, b: PageState, c: PageState)
    requires ExtendsWithoutRelease(a, b) && ExtendsWithoutRelease(b, c)
    ensures ExtendsWithoutRelease(a, c)
  {
    assert c.calls[..|a.calls|] == c.calls[..|b.calls|][..|a.calls|];
    forall k | |a.calls| <= k < |c.calls|
      ensures !c.calls[k].ReleaseCall?
    {
      if k < |b.calls| {
        assert c.calls[k] == c.calls[..|b.calls|][k];
      }
    }
  }

  lemma PushNoRelease(st: PageState, call: Call)
    requires !call.ReleaseCall?
    ensures ExtendsWithoutRelease(st, st.(calls := st.calls + [call]))
  {
    assert (st.calls + [call])[..|st.calls|] == st.calls;
  }

  lemma SameCalls(st: PageState, r: PageState)
    requires r.calls == st.calls
    ensures ExtendsWithoutRelease(st, r)
  {
    assert r.calls[..|st.calls|] == st.calls;
  }

  /** A Send only appends calls, and never a release: an allocation held
      before it is overwritten, not released. */
  lemma SendNeverReleases(st: PageState, serviceId: string, userInput: string, rp: SendReplies)
    ensures ExtendsWithoutRelease(st, Send(st, serviceId, userInput, rp))
  {
    var st1 := st.(err := "", status := STATUS_CANDIDATES);
    var text := Trim(userInput, JsSpace);
    if text == "" {
      SameCalls(st, Send(st, serviceId, userInput, rp));
    } else {
      var st2 := st1.(calls := st1.calls + [CandidatesCall(serviceId)]);
      PushNoRelease(st1, CandidatesCall(serviceId));
      SameCalls(st, st1);
      ExtendsTransitive(st, st1, st2);
      CandidatesNeverRelease(st2, serviceId, text, rp);
      ExtendsTransitive(st, st2, Send(st, serviceId, userInput, rp));
    }
  }

  lemma CandidatesNeverRelease(st: PageState, serviceId: string, text: string, rp: SendReplies)
    ensures ExtendsWithoutRelease(st, AfterCandidates(st, serviceId, text, rp))
  {
    var r := AfterCandidates(st, serviceId, text, rp);
    if rp.candidates.Err? || |Listed(rp)| == 0 {
      SameCalls(st, r);
    } else {
      var st3 := st.(status := STATUS_PING, calls := st.calls + [MeasureCall(Listed(rp))]);
      PushNoRelease(st.(status := STATUS_PING), MeasureCall(Listed(rp)));
      MeasureNeverRelease(st3, serviceId, text, rp);
      ExtendsTransitive(st, st3, r);
    }
  }

  lemma MeasureNeverRelease(st: PageState, serviceId: string, text: string, rp: SendReplies)
    requires rp.candidates.Ok?
    ensures ExtendsWithoutRelease(st, AfterMeasure(st, serviceId, text, rp))
  {
    var r := AfterMeasure(st, serviceId, text, rp);
    var measured := Measured(rp.origin, Some(Listed(rp)), rp.net);
    if measured.Err? {
      SameCalls(st, r);
    } else {
      var call := AllocateCall(serviceId, measured.value);
      var st4 := st.(status := STATUS_ALLOCATE, calls := st.calls + [call]);
      PushNoRelease(st.(status := STATUS_ALLOCATE), call);
      AllocateNeverRelease(st4, serviceId, text, rp);
      ExtendsTransitive(st, st4, r);
    }
  }

  lemma AllocateNeverRelease(st: PageState, serviceId: string, text: string, rp: SendReplies)
    ensures ExtendsWithoutRelease(st, AfterAllocate(st, serviceId, text, rp))
  {
    var r := AfterAllocate(st, serviceId, text, rp);
    if rp.allocate.Err? {
      SameCalls(st, r);
    } else {
      var a := rp.allocate.value;
      var call := InvokeCall(a.addr, serviceId, text);
      var held := st.(allocationId := a.allocationId, chosenAddr := a.addr, endDisabled := false,
                      status := "invoke " + Show(a.addr) + "...");
      PushNoRelease(held, call);
      SameCalls(held.(calls := held.calls + [call]), r);
      ExtendsTransitive(st, held.(calls := held.calls + [call]), r);
    }
  }

  /** End without a held allocation sets "no allocation" and calls
      nothing. */
  lemma EndWithoutAllocation(st: PageState, release: Option<JsError>)
    requires st.allocationId == None || st.allocationId == Some("")
    ensures var r := End(st, release);
            r.err == NO_ALLOCATION && r.calls == st.calls && SameHold(r, st)
  {
  }

  /** End with a held allocation releases exactly that one; on success
      both fields are cleared and End disabled, on failure the hold is
      kept as it was. */
  lemma EndReleases(st: PageState, release: Option<JsError>)
    requires Truthy(st.allocationId)
    ensures var r := End(st, release);
            r.calls == st.calls + [ReleaseCall(st.allocationId.value)]
    ensures var r := End(st, release);
            release == None ==>
              r.allocationId == None && r.chosenAddr == None && r.endDisabled && r.status == STATUS_RELEASED
    ensures var r := End(st, release);
            release.Some? ==> SameHold(r, st) && r.err == ErrorText(release.value)
  {
  }

  /** Send then End: whatever became of the invocation, End releases the
      allocation Send obtained (when it has an id), and a second End finds
      nothing to release. */
  lemma SendThenEnd(st: PageState, serviceId: string, userInput: string, rp: SendReplies, last: Option<JsError>)
    requires Allocates(userInput, rp) && Truthy(rp.allocate.value.allocationId)
    ensures var s := Send(st, serviceId, userInput, rp);
            var r := End(s, None);
            r.calls == s.calls + [ReleaseCall(rp.allocate.value.allocationId.value)]
            && r.allocationId == None && r.chosenAddr == None
    ensures var r := End(End(Send(st, serviceId, userInput, rp), None), last);
            r.err == NO_ALLOCATION && r.calls == End(Send(st, serviceId, userInput, rp), None).calls
  {
    SendHoldsAllocation(st, serviceId, userInput, rp);
  }

  /** `initInvocation`'s page: the service from the `serviceId` query
      parameter (`LLM1` when absent or empty) and the state of the page. */
  class Page {
    const serviceId: string
    var currentAllocationId: Option<string>
    var currentChosenAddr: Option<string>
    var err: string
    var status: string
    var endDisabled: bool
    var output: string
    var calls: seq<Call>

    function State(): PageState
      reads this
    {
      PageState(currentAllocationId, currentChosenAddr, err, status, endDisabled, output, calls)
    }

    constructor (param: Option<string>, endDisabled: bool)
      ensures serviceId == if Truthy(param) then param.value else DEFAULT_SERVICE
      ensures State() == PageState(None, None, "", "", endDisabled, "", [])
    {
      serviceId := if Truthy(param) then param.value else DEFAULT_SERVICE;
      currentAllocationId := None;
      currentChosenAddr := None;
      err := "";
      status := "";
      this.endDisabled := endDisabled;
      output := "";
      calls := [];
    }

    /** The `btnSend` handler. */
    method ClickSend(userInput: string, rp: SendReplies)
      modifies this
      ensures State() == Send(old(State()), serviceId, userInput, rp)
    {
      err := "";
      status := STATUS_CANDIDATES;
      var userText := Trim(userInput, JsSpace);
      if userText == "" {
        err := EMPTY_INPUT;
        return;
      }
      calls := calls + [CandidatesCall(serviceId)];
      ghost var goal := AfterCandidates(State(), serviceId, userText, rp);
      assert goal == Send(old(State()), serviceId, userInput, rp);
      if rp.candidates.Err? {
        err, status := ErrorText(rp.candidates.error), "";
        return;
      }
      var candidates := CandidateList(rp.candidates.value);
      if |candidates| == 0 {
        err := NO_CANDIDATES;
        return;
      }
      status := STATUS_PING;
      calls := calls + [MeasureCall(candidates)];
      assert goal == AfterMeasure(State(), serviceId, userText, rp);
      var measurements := MeasureDelays(rp.origin, Some(candidates), rp.net);
      if measurements.Err? {
        err, status := ErrorText(measurements.error), "";
        return;
      }
      status := STATUS_ALLOCATE;
      calls := calls + [AllocateCall(serviceId, measurements.value)];
      assert goal == AfterAllocate(State(), serviceId, userText, rp);
      HoldAndInvoke(userText, rp);
    }

    /** The rest of the `btnSend` handler once the allocator has answered:
        hold the allocation, enable End, invoke the allocated address. */
    method HoldAndInvoke(userText: string, rp: SendReplies)
      modifies this
      ensures State() == AfterAllocate(old(State()), serviceId, userText, rp)
    {
      if rp.allocate.Err? {
        err, status := ErrorText(rp.allocate.error), "";
        return;
      }
      var alloc := rp.allocate.value;
      currentAllocationId := alloc.allocationId;
      currentChosenAddr := alloc.addr;
      endDisabled := false;
      status := "invoke " + Show(currentChosenAddr) + "...";
      calls := calls + [InvokeCall(currentChosenAddr, serviceId, userText)];
      if rp.invoke.Err? {
        err, status := ErrorText(rp.invoke.error), "";
        return;
      }
      var resp := rp.invoke.value;
      output := if Truthy(resp.Output) then resp.Output.value else resp.json;
      status := "done (instance=" + OrEmpty(resp.InstanceID) + ")";
    }

    /** The `btnEnd` handler; `release` is how the release call settled
        (`None` for success). */
    method ClickEnd(release: Option<JsError>)
      modifies this
      ensures State() == End(old(State()), release)
    {
      err := "";
      if !Truthy(currentAllocationId) {
        err := NO_ALLOCATION;
        return;
      }
      calls := calls + [ReleaseCall(currentAllocationId.value)];
      if release.Some? {
        err := ErrorText(release.value);
        return;
      }
      currentAllocationId := None;
      currentChosenAddr := None;
      endDisabled := true;
      status := STATUS_RELEASED;
    }
  }
}
