/** The loop over call frames: gas and memory of all live frames. */
module FrameLoop {
  import opened Prelude
  import opened CallGas
  import opened MemoryGas
  import opened OpcodeGas
  import opened SharedMemory

  /** Where the output of a call goes in its caller's memory; a creation returns no bytes. */
  datatype Window = Into(offset: nat, len: nat) | Nowhere

  datatype Frame = Frame(limit: nat, remaining: nat, window: Window)

  /** The frames, the running one last, and one memory per frame. */
  datatype State = State(frames: seq<Frame>, memories: seq<Bytes>)

  /** How a frame ends: ok and revert give gas back, an error gives nothing. */
  datatype Ending = Ok | Reverted | Error

  /** What the running interpreter can do next: go on after an instruction, start a call or a creation
      or get its answer at once, or end its frame. `reach` is how far the call's input and output, or
      the init code, reach into memory. Results come from code that is not modelled; Allowed says what
      is known of them. */
  datatype Action =
    | Continue(op: Byte, use: Use, memory: Bytes)
    | StartCall(call: Call, reach: nat, window: Window)
    | AnswerCall(call: Call, reach: nat, window: Window, ending: Ending, left: nat, output: Bytes)
    | StartCreate(create: Create, reach: nat)
    | AnswerCreate(create: Create, reach: nat, ending: Ending, left: nat)
    | Return(ending: Ending, charge: nat, output: Bytes)

  function Last<T>(s: seq<T>): T
    requires s != []
  {
    s[|s| - 1]
  }

  function Init<T>(s: seq<T>): seq<T>
    requires s != []
  {
    s[..|s| - 1]
  }

  predicate WindowFits(window: Window, memory: Bytes) {
    window.Into? && window.len > 0 ==> window.offset + window.len <= |memory|
  }

  /** The memory made to reach `reach`. */
  function Expanded(memory: Bytes, reach: nat): Bytes {
    Resized(memory, Grown(|memory|, reach))
  }

  /** What an instruction may do to the running memory. */
  predicate MemoryMoves(op: Byte, reach: nat, memory: Bytes, memory': Bytes) {
    if WritesMemory(op) then |memory'| == |Expanded(memory, reach)|
    else if ReachesMemory(op) then memory' == Expanded(memory, reach)
    else memory' == memory
  }

  /** The gas left once memory has been expanded, if it can be paid. */
  function Left(top: Frame, memory: Bytes, reach: nat): Option<nat> {
    var price := ExpansionPrice(|memory|, reach);
    if price <= top.remaining then Some(top.remaining - price) else None
  }

  /** The limit of a call, if it can be paid. */
  function CallLimit(spec: SpecId, top: Frame, memory: Bytes, call: Call, reach: nat): Option<nat> {
    var left := Left(top, memory, reach);
    if left.None? then None else GasLimit(spec, left.value, call)
  }

  /** The limit of a creation, if it can be paid. */
  function CreateLimit(spec: SpecId, top: Frame, memory: Bytes, create: Create, reach: nat): Option<nat> {
    var left := Left(top, memory, reach);
    if left.None? || left.value < CreateCost(spec, create) then None
    else Some(AllButOne64th(spec, left.value - CreateCost(spec, create)))
  }

  /** An instruction goes on only if it can pay what it charges; a call or creation is paid for and its
      return window lies in the caller's memory; no answer leaves more gas than it was given. */
  predicate Allowed(spec: SpecId, st: State, action: Action) {
    st.frames != [] && |st.memories| == |st.frames| &&
    var top, memory := Last(st.frames), Last(st.memories);
    match action
    case Continue(op, use, m) =>
      && MemoryMoves(op, use.reach, memory, m)
      && var charge := FullCharge(spec, op, use, top.remaining, |memory|);
         charge.Some? && charge.value <= top.remaining
    case StartCall(call, reach, window) =>
      CallLimit(spec, top, memory, call, reach).Some? && window.Into? && WindowFits(window, Expanded(memory, reach))
    case AnswerCall(call, reach, window, _, left, _) =>
      && CallLimit(spec, top, memory, call, reach).Some? && window.Into? && WindowFits(window, Expanded(memory, reach))
      && left <= CallLimit(spec, top, memory, call, reach).value + Stipend(call)
    case StartCreate(create, reach) => CreateLimit(spec, top, memory, create, reach).Some?
    case AnswerCreate(create, reach, _, left) =>
      CreateLimit(spec, top, memory, create, reach).Some? && left <= CreateLimit(spec, top, memory, create, reach).value
    case Return(_, charge, _) => charge <= top.remaining
  }

  /** A return window inside the range a call has paid for fits the expanded memory. */
  lemma RangeFits(memory: Bytes, reach: nat, window: Window)
    requires |memory| % 32 == 0 && |memory| <= LONGEST && reach <= LONGEST
    requires window.Into? && window.len > 0 ==> window.offset + window.len <= Max(reach, |memory|)
    ensures WindowFits(window, Expanded(memory, reach)) && |Expanded(memory, reach)| % 32 == 0
  {
    GrownCovers(|memory|, reach);
  }

  /** The caller's memory after a call that ended so and returned `output`. */
  function Written(memory: Bytes, window: Window, ending: Ending, output: Bytes): Bytes
    requires WindowFits(window, memory)
  {
    if window.Nowhere? || ending == Error then memory
    else
      var n := Min(window.len, |output|);
      if n == 0 then memory else Overwritten(memory, window.offset, output[..n])
  }

  /** The caller's gas after an answer that leaves `left`. */
  function Repaid(frame: Frame, ending: Ending, left: nat): Frame {
    if ending == Error then frame else frame.(remaining := frame.remaining + left)
  }

  /** The caller once it has paid for a call and handed over its limit. */
  function CallPaid(spec: SpecId, top: Frame, memory: Bytes, call: Call, reach: nat): Frame
    requires CallLimit(spec, top, memory, call, reach).Some?
  {
    HandOverLowersTotal(spec, Left(top, memory, reach).value, call);
    top.(remaining := Left(top, memory, reach).value - CallCostOf(spec, call) - CallLimit(spec, top, memory, call, reach).value)
  }

  function CreatePaid(spec: SpecId, top: Frame, memory: Bytes, create: Create, reach: nat): Frame
    requires CreateLimit(spec, top, memory, create, reach).Some?
  {
    top.(remaining := Left(top, memory, reach).value - CreateCost(spec, create) - CreateLimit(spec, top, memory, create, reach).value)
  }

  function Step(spec: SpecId, st: State, action: Action): State
    requires Allowed(spec, st, action)
  {
    var top, memory := Last(st.frames), Last(st.memories);
    match action
    case Continue(op, use, m) =>
      var charge := FullCharge(spec, op, use, top.remaining, |memory|).value;
      State(Init(st.frames) + [top.(remaining := top.remaining - charge)], Init(st.memories) + [m])
    case StartCall(call, reach, window) =>
      var limit := CallLimit(spec, top, memory, call, reach).value;
      State(Init(st.frames) + [CallPaid(spec, top, memory, call, reach), Frame(limit + Stipend(call), limit + Stipend(call), window)],
            Init(st.memories) + [Expanded(memory, reach), []])
    case AnswerCall(call, reach, window, ending, left, output) =>
      State(Init(st.frames) + [Repaid(CallPaid(spec, top, memory, call, reach), ending, left)],
            Init(st.memories) + [Written(Expanded(memory, reach), window, ending, output)])
    case StartCreate(create, reach) =>
      var limit := CreateLimit(spec, top, memory, create, reach).value;
      State(Init(st.frames) + [CreatePaid(spec, top, memory, create, reach), Frame(limit, limit, Nowhere)],
            Init(st.memories) + [Expanded(memory, reach), []])
    case AnswerCreate(create, reach, ending, left) =>
      State(Init(st.frames) + [Repaid(CreatePaid(spec, top, memory, create, reach), ending, left)],
            Init(st.memories) + [Expanded(memory, reach)])
    case Return(ending, charge, output) =>
      if |st.frames| == 1 then State([], [])
      else
        var callers, memories := Init(st.frames), Init(st.memories);
        var window := if WindowFits(top.window, Last(memories)) then top.window else Nowhere;
        State(Init(callers) + [Repaid(Last(callers), ending, top.remaining - charge)],
              Init(memories) + [Written(Last(memories), window, ending, output)])
  }

  // ---- Gas ----

  function Total(frames: seq<Frame>): nat {
    if frames == [] then 0 else Total(Init(frames)) + Last(frames).remaining
  }

  /** Twice the gas in all frames, plus one per frame. */
  function Measure(st: State): nat {
    2 * Total(st.frames) + |st.frames|
  }

  lemma TotalPush(frames: seq<Frame>, f: Frame)
    ensures Total(frames + [f]) == Total(frames) + f.remaining
  {
    assert Init(frames + [f]) == frames;
  }

  lemma TotalPush2(frames: seq<Frame>, f: Frame, g: Frame)
    ensures Total(frames + [f, g]) == Total(frames) + f.remaining + g.remaining
  {
    assert frames + [f, g] == frames + [f] + [g];
    TotalPush(frames + [f], g);
    TotalPush(frames, f);
  }

  /** Every action lowers the measure, so the loop terminates whatever the code does: each instruction
      that goes on charges gas, and each hand-over costs more than the stipend it grants. */
  lemma StepDescends(spec: SpecId, st: State, action: Action)
    requires Allowed(spec, st, action)
    ensures Measure(Step(spec, st, action)) < Measure(st)
  {
    var top, memory, rest := Last(st.frames), Last(st.memories), Init(st.frames);
    var st' := Step(spec, st, action);
    match action
    case Continue(op, use, _) =>
      EveryStepCosts(spec, op, use, top.remaining, |memory|);
      TotalPush(rest, Last(st'.frames));
    case StartCall(call, reach, _) =>
      HandOverLowersTotal(spec, Left(top, memory, reach).value, call);
      TotalPush2(rest, st'.frames[|rest|], st'.frames[|rest| + 1]);
    case AnswerCall(call, reach, _, _, _, _) =>
      HandOverLowersTotal(spec, Left(top, memory, reach).value, call);
      TotalPush(rest, Last(st'.frames));
    case StartCreate(_, _) => TotalPush2(rest, st'.frames[|rest|], st'.frames[|rest| + 1]);
    case AnswerCreate(_, _, _, _) => TotalPush(rest, Last(st'.frames));
    case Return(_, _, _) => ReturnDescends(spec, st, action);
  }

  lemma ReturnDescends(spec: SpecId, st: State, action: Action)
    requires Allowed(spec, st, action) && action.Return?
    ensures Measure(Step(spec, st, action)) < Measure(st)
  {
    var st', callers := Step(spec, st, action), Init(st.frames);
    if |st.frames| == 1 {
      assert st'.frames == [];
      assert Measure(st') == 0;
    } else {
      var caller := Last(st'.frames);
      assert st'.frames == Init(callers) + [caller];
      TotalPush(Init(callers), caller);
      assert caller.remaining <= Last(callers).remaining + Last(st.frames).remaining;
      assert Total(st'.frames) <= Total(st.frames) && |st'.frames| == |st.frames| - 1;
    }
  }

  ghost predicate IsRun(spec: SpecId, run: seq<State>, actions: seq<Action>) {
    && |run| == |actions| + 1
    && forall k {:trigger Turn(spec, run, actions, k)} :: 0 <= k < |actions| ==> Turn(spec, run, actions, k)
  }

  /** Turn k of the loop. */
  predicate Turn(spec: SpecId, run: seq<State>, actions: seq<Action>, k: int)
    requires 0 <= k < |actions| < |run|
  {
    Allowed(spec, run[k], actions[k]) && run[k + 1] == Step(spec, run[k], actions[k])
  }

  /** A transaction that starts with one frame of `limit` gas takes at most 2 * limit + 1 actions. */
  lemma {:induction false} RunIsBounded(spec: SpecId, run: seq<State>, actions: seq<Action>, k: nat)
    requires IsRun(spec, run, actions) && k < |run|
    ensures Measure(run[k]) + k <= Measure(run[0])
  {
    if k > 0 {
      RunIsBounded(spec, run, actions, k - 1);
      assert Turn(spec, run, actions, k - 1);
      StepDescends(spec, run[k - 1], actions[k - 1]);
    }
  }

  /** What a frame may still get back never takes it over its limit. */
  predicate FrameWithin(frames: seq<Frame>, i: int)
    requires 0 <= i < |frames|
  {
    frames[i].remaining + (if i + 1 < |frames| then frames[i + 1].limit else 0) <= frames[i].limit
  }

  ghost predicate Inv(st: State) {
    && |st.memories| == |st.frames|
    && (forall i {:trigger FrameWithin(st.frames, i)} :: 0 <= i < |st.frames| ==> FrameWithin(st.frames, i))
    && (forall i :: 0 < i < |st.frames| ==> WindowFits(st.frames[i].window, st.memories[i - 1]))
  }

  /** What every action but a return does: everything below the running frame stays, that frame pays for
      itself and for the limit of a frame it starts, and the new frame's window fits. */
  predicate Forward(st: State, st': State) {
    var n := |st.frames| - 1;
    && n >= 0 && |st.memories| == n + 1 && |st'.memories| == |st'.frames| && n + 1 <= |st'.frames| <= n + 2
    && st'.frames[..n] == st.frames[..n] && st'.memories[..n] == st.memories[..n]
    && st'.frames[n].limit == st.frames[n].limit && st'.frames[n].window == st.frames[n].window
    && (if |st'.frames| == n + 1 then st'.frames[n].remaining <= st.frames[n].remaining
        else
          && st'.frames[n].remaining + st'.frames[n + 1].limit <= st.frames[n].remaining
          && st'.frames[n + 1].remaining <= st'.frames[n + 1].limit
          && WindowFits(st'.frames[n + 1].window, st'.memories[n]))
  }

  lemma StepForward(spec: SpecId, st: State, action: Action)
    requires Allowed(spec, st, action) && !action.Return?
    ensures Forward(st, Step(spec, st, action))
  {
    if action.StartCall? || action.AnswerCall? {
      HandOverLowersTotal(spec, Left(Last(st.frames), Last(st.memories), action.reach).value, action.call);
    }
  }

  lemma ForwardWithin(st: State, st': State, i: int)
    requires Inv(st) && Forward(st, st') && 0 <= i < |st'.frames|
    ensures FrameWithin(st'.frames, i)
  {
    var n := |st.frames| - 1;
    if i <= n {
      assert FrameWithin(st.frames, i);
      assert i < n ==> st'.frames[i] == st'.frames[..n][i] && st.frames[i] == st.frames[..n][i];
      assert i + 1 < n ==> st'.frames[i + 1] == st'.frames[..n][i + 1] && st.frames[i + 1] == st.frames[..n][i + 1];
    }
  }

  lemma ForwardWindow(st: State, st': State, i: int)
    requires Inv(st) && Forward(st, st') && 0 < i < |st'.frames|
    ensures WindowFits(st'.frames[i].window, st'.memories[i - 1])
  {
    var n := |st.frames| - 1;
    if i <= n {
      assert WindowFits(st.frames[i].window, st.memories[i - 1]);
      assert i < n ==> st'.frames[i] == st'.frames[..n][i] && st.frames[i] == st.frames[..n][i];
      assert st'.memories[i - 1] == st'.memories[..n][i - 1] && st.memories[i - 1] == st.memories[..n][i - 1];
    }
  }

  /** What a return into a waiting caller leaves. */
  lemma ReturnLeaves(spec: SpecId, st: State, action: Action)
    requires Inv(st) && Allowed(spec, st, action) && action.Return? && |st.frames| > 1
    ensures var st', n := Step(spec, st, action), |st.frames| - 2;
            && |st'.frames| == n + 1 == |st'.memories|
            && st'.frames[..n] == st.frames[..n] && st'.memories[..n] == st.memories[..n]
            && st'.frames[n].limit == st.frames[n].limit && st'.frames[n].window == st.frames[n].window
            && st'.frames[n].remaining <= st.frames[n].limit
  {
    var n := |st.frames| - 2;
    assert FrameWithin(st.frames, n) && FrameWithin(st.frames, n + 1);
  }

  lemma ReturnKeepsInv(spec: SpecId, st: State, action: Action)
    requires Inv(st) && Allowed(spec, st, action) && action.Return?
    ensures Inv(Step(spec, st, action))
  {
    if |st.frames| > 1 {
      var st', n := Step(spec, st, action), |st.frames| - 2;
      ReturnLeaves(spec, st, action);
      forall i | 0 <= i < |st'.frames| ensures FrameWithin(st'.frames, i) {
        assert FrameWithin(st.frames, i);
        assert i < n ==> st'.frames[i] == st'.frames[..n][i] && st.frames[i] == st.frames[..n][i];
        assert i + 1 < n ==> st'.frames[i + 1] == st'.frames[..n][i + 1] && st.frames[i + 1] == st.frames[..n][i + 1];
      }
      forall i | 0 < i < |st'.frames| ensures WindowFits(st'.frames[i].window, st'.memories[i - 1]) {
        assert WindowFits(st.frames[i].window, st.memories[i - 1]);
        assert i < n ==> st'.frames[i] == st'.frames[..n][i] && st.frames[i] == st.frames[..n][i];
        assert st'.memories[i - 1] == st'.memories[..n][i - 1] && st.memories[i - 1] == st.memories[..n][i - 1];
      }
    }
  }

  /** In every frame the remaining gas stays within the limit, there is one memory per frame, and
      every suspended caller's return window still lies in its memory. */
  lemma StepKeepsInv(spec: SpecId, st: State, action: Action)
    requires Inv(st) && Allowed(spec, st, action)
    ensures Inv(Step(spec, st, action))
  {
    if action.Return? {
      ReturnKeepsInv(spec, st, action);
    } else {
      var st' := Step(spec, st, action);
      StepForward(spec, st, action);
      forall i | 0 <= i < |st'.frames| ensures FrameWithin(st'.frames, i) {
        ForwardWithin(st, st', i);
      }
      forall i | 0 < i < |st'.frames| ensures WindowFits(st'.frames[i].window, st'.memories[i - 1]) {
        ForwardWindow(st, st', i);
      }
    }
  }

  lemma {:induction false} RunInv(spec: SpecId, run: seq<State>, actions: seq<Action>, k: nat)
    requires IsRun(spec, run, actions) && Inv(run[0]) && k < |run|
    ensures Inv(run[k])
  {
    if k > 0 {
      RunInv(spec, run, actions, k - 1);
      assert Turn(spec, run, actions, k - 1);
      StepKeepsInv(spec, run[k - 1], actions[k - 1]);
    }
  }

  // ---- Memory ----

  /** The frames and memories below the d-th are the same, and so is where its output will go. */
  predicate SameBelow(u: State, v: State, d: nat) {
    && d < |u.frames| && d < |v.frames| && d < |u.memories| && d < |v.memories|
    && v.memories[..d] == u.memories[..d] && v.frames[..d] == u.frames[..d]
    && v.frames[d].window == u.frames[d].window && v.frames[d].limit == u.frames[d].limit
  }

  /** While deeper frames run, the memories and gas below them do not change. */
  lemma {:induction false} BelowUntouched(spec: SpecId, run: seq<State>, actions: seq<Action>, i: nat, k: nat, d: nat)
    requires IsRun(spec, run, actions) && Inv(run[0]) && i < k < |run|
    requires d < |run[i + 1].frames| && forall n :: i < n <= k ==> |run[n].frames| > d
    ensures SameBelow(run[i + 1], run[k], d)
    decreases k
  {
    RunInv(spec, run, actions, k);
    if k > i + 1 {
      BelowUntouched(spec, run, actions, i, k - 1, d);
      RunInv(spec, run, actions, k - 1);
      assert Turn(spec, run, actions, k - 1);
      OneStepBelow(spec, run[k - 1], actions[k - 1], d);
    }
  }

  lemma OneStepBelow(spec: SpecId, st: State, action: Action, d: nat)
    requires Inv(st) && Allowed(spec, st, action) && d < |st.frames| && d < |Step(spec, st, action).frames|
    ensures SameBelow(st, Step(spec, st, action), d)
  {
    var st', n := Step(spec, st, action), |st.frames| - 1;
    if action.Return? {
      ReturnBelow(spec, st, action, d);
    } else {
      StepForward(spec, st, action);
      FrontPart(st.frames, st'.frames, n, d);
      FrontPart(st.memories, st'.memories, n, d);
    }
  }

  lemma ReturnBelow(spec: SpecId, st: State, action: Action, d: nat)
    requires Inv(st) && Allowed(spec, st, action) && action.Return? && d < |Step(spec, st, action).frames|
    ensures SameBelow(st, Step(spec, st, action), d)
  {
    var st', n := Step(spec, st, action), |st.frames| - 2;
    ReturnLeaves(spec, st, action);
    FrontPart(st.frames, st'.frames, n, d);
    FrontPart(st.memories, st'.memories, n, d);
  }

  lemma FrontPart<T>(s: seq<T>, t: seq<T>, n: nat, d: nat)
    requires d <= n <= |s| && n <= |t| && s[..n] == t[..n]
    ensures s[..d] == t[..d] && (d < n ==> s[d] == t[d])
  {
    assert s[..d] == s[..n][..d] && t[..d] == t[..n][..d];
    assert d < n ==> s[d] == s[..n][d] && t[d] == t[..n][d];
  }

  /** A call or a creation that starts a frame. */
  predicate StartsChild(action: Action) {
    action.StartCall? || action.StartCreate?
  }

  /** Where the child's output will go; a creation returns no bytes. */
  function ChildWindow(action: Action): Window {
    if action.StartCall? then action.window else Nowhere
  }

  /** What a finished child has done to its parent. The parent's memory is the one it paid for when it
      started the child but for the first min(window, output) bytes of a call's return window, and those
      only if the callee returned ok or reverted; after a creation it is all of it. All memories below
      are as they were. The parent's gas is what it kept when the child started (in `mid`) and, if the
      child ended ok or reverted, what the child had left when it returned (in `before`) less what
      returning charged; it is less than before the child started. */
  predicate Isolated(st: State, start: Action, mid: State, before: State, st': State, ret: Action) {
    && StartsChild(start) && ret.Return? && |st.memories| == |st.frames| == |st'.frames| == |st'.memories| > 0
    && |mid.frames| == |before.frames| == |st.frames| + 1
    && WindowFits(ChildWindow(start), Expanded(Last(st.memories), start.reach))
    && st'.memories == Init(st.memories) + [Written(Expanded(Last(st.memories), start.reach), ChildWindow(start), ret.ending, ret.output)]
    && Last(st'.frames).remaining ==
       Last(Init(mid.frames)).remaining + (if ret.ending == Error then 0 else Last(before.frames).remaining - ret.charge)
    && Last(st'.frames).remaining < Last(st.frames).remaining
  }

  /** Isolation: if a child starts at i and j is the first later state with as many frames as i, then
      whatever ran in between, to any depth, has touched nothing of the parent but a call's return
      window. */
  lemma {:induction false} ChildIsIsolated(spec: SpecId, run: seq<State>, actions: seq<Action>, i: nat, j: nat)
    requires IsRun(spec, run, actions) && Inv(run[0]) && i + 1 < j < |run|
    requires StartsChild(actions[i])
    requires forall n :: i < n < j ==> |run[n].frames| > |run[i].frames|
    requires |run[j].frames| == |run[i].frames|
    ensures Isolated(run[i], actions[i], run[i + 1], run[j - 1], run[j], actions[j - 1])
  {
    RunInv(spec, run, actions, i);
    RunInv(spec, run, actions, j - 1);
    assert Turn(spec, run, actions, i) && Turn(spec, run, actions, j - 1);
    ChildStarted(spec, run[i], actions[i]);
    BelowUntouched(spec, run, actions, i, j - 1, |run[i].frames|);
    ChildEnds(spec, run[i], actions[i], run[i + 1], run[j - 1], actions[j - 1]);
  }

  /** After a creation the creator's memory is exactly the one it paid for. */
  lemma {:induction false} CreationIsIsolated(spec: SpecId, run: seq<State>, actions: seq<Action>, i: nat, j: nat)
    requires IsRun(spec, run, actions) && Inv(run[0]) && i + 1 < j < |run|
    requires actions[i].StartCreate?
    requires forall n :: i < n < j ==> |run[n].frames| > |run[i].frames|
    requires |run[j].frames| == |run[i].frames|
    ensures run[i].memories != [] && run[j].memories == Init(run[i].memories) + [Expanded(Last(run[i].memories), actions[i].reach)]
  {
    ChildIsIsolated(spec, run, actions, i, j);
  }

  /** A child that starts in st and is about to return from `before`, with nothing below it changed. */
  lemma ChildEnds(spec: SpecId, st: State, start: Action, mid: State, before: State, ret: Action)
    requires Started(st, start, mid) && SameBelow(mid, before, |st.frames|)
    requires Inv(before) && Allowed(spec, before, ret) && |Step(spec, before, ret).frames| == |st.frames|
    ensures Isolated(st, start, mid, before, Step(spec, before, ret), ret)
  {
    var d := |st.frames|;
    ReturnStep(spec, before, ret, d);
    assert before.memories[d - 1] == before.memories[..d][d - 1] && mid.memories[d - 1] == mid.memories[..d][d - 1];
    assert before.frames[d - 1] == before.frames[..d][d - 1] && mid.frames[d - 1] == mid.frames[..d][d - 1];
    assert before.memories[..d - 1] == before.memories[..d][..d - 1];
    assert mid.memories[..d - 1] == mid.memories[..d][..d - 1];
    assert FrameWithin(before.frames, d);
  }

  /** What starting a child leaves of its parent: memory that reaches far enough, and less gas than
      before even if all of the child's limit comes back. */
  predicate Started(st: State, action: Action, st': State) {
    var d := |st.frames|;
    && d > 0 && |st.memories| == d && |st'.frames| == d + 1 == |st'.memories| && StartsChild(action)
    && st'.memories[..d - 1] == Init(st.memories) && st'.memories[d - 1] == Expanded(Last(st.memories), action.reach)
    && st'.frames[d].window == ChildWindow(action) && WindowFits(ChildWindow(action), st'.memories[d - 1])
    && st'.frames[d - 1].remaining + st'.frames[d].limit < Last(st.frames).remaining
  }

  /** Starting a call costs the caller its memory, the call's cost and the limit; the callee starts with
      the limit, and the stipend if value moves. */
  lemma CallHandsOver(spec: SpecId, st: State, action: Action)
    requires Allowed(spec, st, action) && action.StartCall?
    ensures var st', top, memory := Step(spec, st, action), Last(st.frames), Last(st.memories);
            var spent := ExpansionPrice(|memory|, action.reach) + CallCostOf(spec, action.call);
            var limit := GasLimit(spec, top.remaining - ExpansionPrice(|memory|, action.reach), action.call);
            && spent <= top.remaining && limit.Some?
            && st'.frames == Init(st.frames) + [top.(remaining := top.remaining - spent - limit.value),
                 Frame(limit.value + Stipend(action.call), limit.value + Stipend(action.call), action.window)]
  {
    HandOverLowersTotal(spec, Left(Last(st.frames), Last(st.memories), action.reach).value, action.call);
  }

  /** Starting a creation costs the creator its memory and the creation's cost; the child starts with all
      but one 64th of the rest. */
  lemma CreateHandsOver(spec: SpecId, st: State, action: Action)
    requires Allowed(spec, st, action) && action.StartCreate?
    ensures var st', top, memory := Step(spec, st, action), Last(st.frames), Last(st.memories);
            var rest := top.remaining - ExpansionPrice(|memory|, action.reach) - CreateCost(spec, action.create);
            && rest >= 0
            && var limit := AllButOne64th(spec, rest);
               && limit <= rest
               && st'.frames == Init(st.frames) + [top.(remaining := rest - limit), Frame(limit, limit, Nowhere)]
  {
  }

  /** A return gives the total of all frames back but for what returning charges, or on an error all that
      the child had left is gone. */
  lemma ReturnTotal(spec: SpecId, st: State, action: Action)
    requires Allowed(spec, st, action) && action.Return? && |st.frames| > 1
    ensures Total(Step(spec, st, action).frames) ==
            Total(st.frames) - if action.ending == Error then Last(st.frames).remaining else action.charge
  {
    var st', callers := Step(spec, st, action), Init(st.frames);
    var caller := Last(st'.frames);
    assert st'.frames == Init(callers) + [caller];
    TotalPush(Init(callers), caller);
  }

  /** An answer without a frame: the caller pays for memory, cost and limit and gets back what is left,
      unless it was an error. */
  lemma AnswerTotal(spec: SpecId, st: State, action: Action)
    requires Allowed(spec, st, action) && (action.AnswerCall? || action.AnswerCreate?)
    ensures var price := ExpansionPrice(|Last(st.memories)|, action.reach);
            var cost := if action.AnswerCall? then CallCostOf(spec, action.call) else CreateCost(spec, action.create);
            var left := Last(st.frames).remaining - price - cost;
            && left >= 0
            && var limit := if action.AnswerCall? then GasLimit(spec, left + cost, action.call).value else AllButOne64th(spec, left);
               && limit <= left
               && Total(Step(spec, st, action).frames) ==
                  Total(st.frames) - price - cost - limit + if action.ending == Error then 0 else action.left
  {
    var rest := Init(st.frames);
    if action.AnswerCall? {
      HandOverLowersTotal(spec, Left(Last(st.frames), Last(st.memories), action.reach).value, action.call);
    }
    TotalPush(rest, Last(Step(spec, st, action).frames));
  }

  /** The bytes of a memory after a call: the output in the window as far as both reach, and the memory's
      own elsewhere; an error writes nothing. */
  lemma WrittenAt(memory: Bytes, window: Window, ending: Ending, output: Bytes, i: nat)
    requires WindowFits(window, memory) && i < |memory|
    ensures |Written(memory, window, ending, output)| == |memory|
    ensures Written(memory, window, ending, output)[i] ==
            if ending != Error && window.Into? && window.offset <= i < window.offset + Min(window.len, |output|)
            then output[i - window.offset] else memory[i]
  {
  }

  lemma ChildStarted(spec: SpecId, st: State, action: Action)
    requires Allowed(spec, st, action) && StartsChild(action)
    ensures Started(st, action, Step(spec, st, action))
  {
    if action.StartCall? {
      HandOverLowersTotal(spec, Left(Last(st.frames), Last(st.memories), action.reach).value, action.call);
    }
  }

  /** The step that brings the loop back to d frames is a return. */
  lemma ReturnStep(spec: SpecId, st: State, action: Action, d: nat)
    requires Inv(st) && Allowed(spec, st, action) && 0 < d < |st.frames| && |Step(spec, st, action).frames| == d
    ensures |st.frames| == d + 1 && action.Return?
    ensures WindowFits(st.frames[d].window, st.memories[d - 1])
    ensures var st' := Step(spec, st, action);
            && st'.memories == st.memories[..d - 1] + [Written(st.memories[d - 1], st.frames[d].window, action.ending, action.output)]
            && st'.frames[d - 1].remaining ==
               st.frames[d - 1].remaining + if action.ending == Error then 0 else st.frames[d].remaining - action.charge
  {
  }

  // ---- The loop itself ----

  /** Runs the loop on the shared buffer until no frame is left, or the handler breaks its contract.
      It terminates for every handler, and the buffer's contexts are the frames' memories throughout. */
  method RunTheLoop(spec: SpecId, limit: nat, memory: SharedMemory, handler: State -> Action)
    returns (ghost run: seq<State>, ghost actions: seq<Action>)
    requires memory.Valid() && memory.Contexts() == []
    modifies memory
    ensures memory.Valid() && IsRun(spec, run, actions) && run[0] == State([Frame(limit, limit, Nowhere)], [[]])
    ensures memory.Contexts() == run[|run| - 1].memories
    ensures run[|run| - 1].frames == [] || !Allowed(spec, run[|run| - 1], handler(run[|run| - 1]))
    ensures |actions| <= 2 * limit + 1
  {
    var st := State([Frame(limit, limit, Nowhere)], [[]]);
    memory.NewContext();
    run, actions := [st], [];
    InitialInv(limit);
    while st.frames != [] && Allowed(spec, st, handler(st))
      invariant memory.Valid() && memory.Contexts() == st.memories && Inv(st)
      invariant IsRun(spec, run, actions) && run[0] == State([Frame(limit, limit, Nowhere)], [[]]) && run[|run| - 1] == st
      decreases Measure(st)
    {
      var action := handler(st);
      var next := Step(spec, st, action);
      StepDescends(spec, st, action);
      StepKeepsInv(spec, st, action);
      Advance(spec, st, action, memory);
      ExtendRun(spec, run, actions, action, next);
      run, actions := run + [next], actions + [action];
      st := next;
    }
    RunIsBounded(spec, run, actions, |run| - 1);
    assert Total([Frame(limit, limit, Nowhere)]) == limit by {
      TotalPush([], Frame(limit, limit, Nowhere));
      assert [] + [Frame(limit, limit, Nowhere)] == [Frame(limit, limit, Nowhere)];
    }
  }

  lemma InitialInv(limit: nat)
    ensures Inv(State([Frame(limit, limit, Nowhere)], [[]]))
  {
  }

  lemma ExtendRun(spec: SpecId, run: seq<State>, actions: seq<Action>, action: Action, next: State)
    requires IsRun(spec, run, actions) && Allowed(spec, run[|run| - 1], action) && next == Step(spec, run[|run| - 1], action)
    ensures IsRun(spec, run + [next], actions + [action])
  {
    forall k | 0 <= k < |actions| + 1 ensures Turn(spec, run + [next], actions + [action], k) {
      assert k < |actions| ==> Turn(spec, run, actions, k);
    }
  }

  /** What one action does to the shared buffer. */
  method Advance(spec: SpecId, st: State, action: Action, memory: SharedMemory)
    requires Inv(st) && Allowed(spec, st, action) && memory.Valid() && memory.Contexts() == st.memories
    modifies memory
    ensures memory.Valid() && memory.Contexts() == Step(spec, st, action).memories
  {
    match action
    case Continue(_, _, m) => memory.SetTop(m);
    case StartCall(_, reach, _) =>
      Expand(memory, reach);
      memory.NewContext();
    case StartCreate(_, reach) =>
      Expand(memory, reach);
      memory.NewContext();
    case AnswerCall(_, reach, window, ending, _, output) =>
      Expand(memory, reach);
      InsertOutput(memory, window, ending, output);
    case AnswerCreate(_, reach, _, _) => Expand(memory, reach);
    case Return(ending, _, output) => Leave(spec, st, action, memory);
  }

  /** Frees the memory of a frame that returns and hands its output to the caller. */
  method Leave(spec: SpecId, st: State, action: Action, memory: SharedMemory)
    requires Inv(st) && Allowed(spec, st, action) && action.Return? && memory.Valid() && memory.Contexts() == st.memories
    modifies memory
    ensures memory.Valid() && memory.Contexts() == Step(spec, st, action).memories
  {
    memory.FreeContext();
    if |st.frames| > 1 {
      assert memory.Contexts() == Init(st.memories);
      InsertOutput(memory, Last(st.frames).window, action.ending, action.output);
    }
  }

  /** Makes the running memory reach `reach`. */
  method Expand(memory: SharedMemory, reach: nat)
    requires memory.Valid() && memory.Contexts() != []
    modifies memory`buffer
    ensures memory.Valid()
    ensures memory.Contexts() == Init(old(memory.Contexts())) + [Expanded(Last(old(memory.Contexts())), reach)]
  {
    ghost var contexts := memory.Contexts();
    assert memory.Top() == Last(contexts);
    if reach > memory.Len() {
      memory.Resize(32 * NumWords(reach));
    } else {
      assert Resized(Last(contexts), |Last(contexts)|) == Last(contexts);
    }
    assert memory.Contexts() == contexts[|contexts| - 1 := Expanded(Last(contexts), reach)];
  }

  /** Writes a call's output into the window of the running memory. */
  method InsertOutput(memory: SharedMemory, window: Window, ending: Ending, output: Bytes)
    requires memory.Valid() && memory.Contexts() != [] && WindowFits(window, Last(memory.Contexts()))
    modifies memory`buffer
    ensures memory.Valid()
    ensures memory.Contexts() == Init(old(memory.Contexts())) + [Written(Last(old(memory.Contexts())), window, ending, output)]
  {
    ghost var contexts := memory.Contexts();
    assert memory.Top() == Last(contexts);
    if window.Into? && ending != Error {
      var targetLen := Min(window.len, |output|);
      memory.Set(window.offset, output[..targetLen]);
    }
    assert memory.Contexts() == contexts[|contexts| - 1 := Written(Last(contexts), window, ending, output)];
  }

  /** An instruction that goes on takes exactly its charge from the running frame, and nothing from the
      others. */
  lemma ContinueTotal(spec: SpecId, st: State, action: Action)
    requires Allowed(spec, st, action) && action.Continue?
    ensures FullCharge(spec, action.op, action.use, Last(st.frames).remaining, |Last(st.memories)|).Some?
    ensures Total(Step(spec, st, action).frames) ==
            Total(st.frames) - FullCharge(spec, action.op, action.use, Last(st.frames).remaining, |Last(st.memories)|).value
    ensures Init(Step(spec, st, action).frames) == Init(st.frames)
  {
    TotalPush(Init(st.frames), Last(Step(spec, st, action).frames));
  }
}
