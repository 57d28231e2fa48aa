/** The input state machine of src/controls.cpp: debounced key and button handling, the cursor
    focus flags, mouse-look offsets and the queue of actions deferred until a camera move ends.
    The clock (`glfwGetTime`), key and button states and the window manager are outside the
    model: times and key states are parameters, and window-manager calls are returned. */
module Controls {
  import opened Options

  /** Seconds that must pass between two accepted presses. */
  const DEBOUNCE_TIME: real := 0.1

  /** A `double` passed by reference to `debounce`: the time it was last called with. */
  class TimeRef {
    var value: real

    constructor(t: real)
      ensures value == t
    {
      value := t;
    }
  }

  /** `debounce`: accepts when strictly more than `DEBOUNCE_TIME` has passed since the previous
      call, and remembers the current time whether it accepts or not. The `double` times are
      exact reals here, so the subtraction does not round. */
  method Debounce(lastTime: TimeRef, curTime: real) returns (fired: bool)
    modifies lastTime
    ensures lastTime.value == curTime
    ensures fired <==> curTime - old(lastTime.value) > DEBOUNCE_TIME
  {
    var interval := curTime - lastTime.value;
    lastTime.value := curTime;
    fired := interval > DEBOUNCE_TIME;
  }

  /** The time a debounce variable holds after calls at `times`, starting from `last`. */
  function LastTime(last: real, times: seq<real>): real {
    if times == [] then last else times[|times| - 1]
  }

  /** Whether each of a series of `debounce` calls on one variable accepts. */
  function DebounceTrace(last: real, times: seq<real>): (fired: seq<bool>)
    ensures |fired| == |times|
  {
    if times == [] then []
    else
      var before := times[..|times| - 1];
      DebounceTrace(last, before) + [times[|times| - 1] - LastTime(last, before) > DEBOUNCE_TIME]
  }

  /** Call `i` of a series accepts exactly when more than `DEBOUNCE_TIME` has passed since the
      call before it (or since `last`, for the first). */
  lemma {:induction false} DebounceTraceAt(last: real, times: seq<real>, i: int)
    requires 0 <= i < |times|
    ensures DebounceTrace(last, times)[i] <==> times[i] - LastTime(last, times[..i]) > DEBOUNCE_TIME
  {
    var before := times[..|times| - 1];
    if i < |times| - 1 {
      DebounceTraceAt(last, before, i);
      assert before[..i] == times[..i];
    } else {
      assert before == times[..i];
    }
  }

  /** Because every call resets the variable, a burst of calls each at most `DEBOUNCE_TIME`
      after the previous one accepts at most the first. */
  lemma {:induction false} DebounceBurst(last: real, times: seq<real>)
    requires forall i :: 0 < i < |times| ==> times[i] - times[i - 1] <= DEBOUNCE_TIME
    ensures forall i :: 0 < i < |times| ==> !DebounceTrace(last, times)[i]
  {
    forall i | 0 < i < |times|
      ensures !DebounceTrace(last, times)[i]
    {
      DebounceTraceAt(last, times, i);
      assert LastTime(last, times[..i]) == times[i - 1];
    }
  }

  /** `world->action` requests made by mouse clicks. */
  datatype Action = PLACE_CUBE | REMOVE_CUBE

  /** Window-manager requests: `wm->captureInput()` or `wm->passthroughInput()`. */
  datatype WmRequest = CaptureInput | PassthroughInput

  /** GLFW cursor modes set through `glfwSetInputMode`. */
  datatype CursorMode = CursorNormal | CursorDisabled

  /** What a handler asks of the environment: one window-manager request and, when the handler
      calls `glfwSetInputMode`, the cursor mode it sets. */
  datatype InputRequest = InputRequest(wm: WmRequest, cursor: Option<CursorMode>)

  /** An app entity, identified by number. */
  type AppId = nat

  /** The `shared_ptr<bool>` a camera move returns; it becomes true when the move is done. */
  class DoneFlag {
    var value: bool

    constructor(v: bool)
      ensures value == v
    {
      value := v;
    }
  }

  /** The deferred function `goToApp` queues: grab the cursor and focus the app. */
  datatype DeferredFn = FocusApp(app: AppId)

  datatype DeferedAction = DeferedAction(isDone: DoneFlag, fn: DeferredFn)

  /** The cursor focus flags that `handleToggleFocus` flips. */
  datatype FocusState = FocusState(grabbedCursor: bool, resetMouse: bool)

  /** The effect of an accepted F press: release a grabbed cursor, or grab it and ask for the
      next mouse position to be taken as the new reference. */
  function ToggleFocus(s: FocusState): (t: FocusState)
    ensures t.grabbedCursor == !s.grabbedCursor
    ensures t.grabbedCursor ==> t.resetMouse
    ensures !t.grabbedCursor ==> t.resetMouse == s.resetMouse
  {
    if s.grabbedCursor then FocusState(false, s.resetMouse) else FocusState(true, true)
  }

  /** Two accepted presses give the cursor back its original grab state. */
  lemma ToggleFocusTwice(s: FocusState)
    ensures ToggleFocus(ToggleFocus(s)).grabbedCursor == s.grabbedCursor
    ensures s.grabbedCursor ==> ToggleFocus(ToggleFocus(s)) == FocusState(true, true)
  {
  }

  /** The mouse-look rotation a cursor move produces. */
  datatype Offset = Offset(x: real, y: real)

  /** The flags of the actions in a queue, in queue order. */
  function DoneMask(q: seq<DeferedAction>): (m: seq<bool>)
    reads set a | a in q :: a.isDone
    ensures |m| == |q| && forall i :: 0 <= i < |q| ==> m[i] == q[i].isDone.value
  {
    if q == [] then [] else DoneMask(q[..|q| - 1]) + [q[|q| - 1].isDone.value]
  }

  /** The entries of `q` whose flag in `done` is false, in order. */
  function KeepUndone<T>(q: seq<T>, done: seq<bool>): seq<T>
    requires |q| == |done|
  {
    if q == [] then [] else
      KeepUndone(q[..|q| - 1], done[..|q| - 1]) + (if done[|q| - 1] then [] else [q[|q| - 1]])
  }

  /** The entries of `q` whose flag in `done` is true, in order. */
  function DoneOnes<T>(q: seq<T>, done: seq<bool>): seq<T>
    requires |q| == |done|
  {
    if q == [] then [] else
      DoneOnes(q[..|q| - 1], done[..|q| - 1]) + (if done[|q| - 1] then [q[|q| - 1]] else [])
  }

  /** Extending the prefix by entry `i` adds it to the kept or to the run entries. */
  lemma PartitionStep<T>(q: seq<T>, done: seq<bool>, i: int)
    requires |q| == |done| && 0 <= i < |q|
    ensures KeepUndone(q[..i + 1], done[..i + 1]) == KeepUndone(q[..i], done[..i]) + (if done[i] then [] else [q[i]])
    ensures DoneOnes(q[..i + 1], done[..i + 1]) == DoneOnes(q[..i], done[..i]) + (if done[i] then [q[i]] else [])
  {
    assert q[..i + 1][..i] == q[..i] && done[..i + 1][..i] == done[..i];
  }

  /** Every entry is either kept or run, never both and never neither. */
  lemma {:induction false} PartitionSizes<T>(q: seq<T>, done: seq<bool>)
    requires |q| == |done|
    ensures |KeepUndone(q, done)| + |DoneOnes(q, done)| == |q|
  {
    if q != [] {
      PartitionSizes(q[..|q| - 1], done[..|q| - 1]);
    }
  }

  /** What is kept is exactly what was not done, in its original order: entry `i` of `q` that is
      not done lands at its rank among the not-done entries before it. */
  lemma {:induction false} KeepUndoneOrder<T>(q: seq<T>, done: seq<bool>, i: int)
    requires |q| == |done| && 0 <= i < |q| && !done[i]
    ensures var rank := |KeepUndone(q[..i], done[..i])|;
      rank < |KeepUndone(q, done)| && KeepUndone(q, done)[rank] == q[i]
  {
    var n := |q| - 1;
    if i == n {
      assert q[..i] == q[..n] && done[..i] == done[..n];
    } else {
      assert q[..n][..i] == q[..i] && done[..n][..i] == done[..i];
      KeepUndoneOrder(q[..n], done[..n], i);
    }
  }

  /** Every kept entry is an entry of `q` that was not done. */
  lemma {:induction false} KeepUndoneOnlyUndone<T>(q: seq<T>, done: seq<bool>, j: int)
    requires |q| == |done| && 0 <= j < |KeepUndone(q, done)|
    ensures exists i :: 0 <= i < |q| && !done[i] && q[i] == KeepUndone(q, done)[j]
  {
    var n := |q| - 1;
    var prefix := KeepUndone(q[..n], done[..n]);
    if j < |prefix| {
      KeepUndoneOnlyUndone(q[..n], done[..n], j);
      var i :| 0 <= i < n && !done[..n][i] && q[..n][i] == prefix[j];
      assert q[i] == KeepUndone(q, done)[j];
    } else {
      assert !done[n] && q[n] == KeepUndone(q, done)[j];
    }
  }

  /** When nothing is done, everything is kept and nothing is run. */
  lemma {:induction false} NothingDone<T>(q: seq<T>, done: seq<bool>)
    requires |q| == |done| && forall i :: 0 <= i < |done| ==> !done[i]
    ensures KeepUndone(q, done) == q && DoneOnes(q, done) == []
  {
    if q != [] {
      NothingDone(q[..|q| - 1], done[..|q| - 1]);
    }
  }

  /** The flags of the kept actions are the kept flags. */
  lemma {:induction false} DoneMaskOfKept(q: seq<DeferedAction>)
    ensures DoneMask(KeepUndone(q, DoneMask(q))) == KeepUndone(DoneMask(q), DoneMask(q))
  {
    if q != [] {
      var n := |q| - 1;
      DoneMaskOfKept(q[..n]);
      assert DoneMask(q)[..n] == DoneMask(q[..n]);
    }
  }

  /** Every flag that survives the filter is false. */
  lemma {:induction false} KeptFlagsFalse(done: seq<bool>)
    ensures forall i :: 0 <= i < |KeepUndone(done, done)| ==> !KeepUndone(done, done)[i]
  {
    if done != [] {
      KeptFlagsFalse(done[..|done| - 1]);
    }
  }

  /** Running the deferred actions is idempotent while no flag changes: a second run keeps the
      whole queue and runs nothing. */
  lemma RunTwice(q: seq<DeferedAction>)
    ensures var kept := KeepUndone(q, DoneMask(q));
      KeepUndone(kept, DoneMask(kept)) == kept && DoneOnes(kept, DoneMask(kept)) == []
  {
    var kept := KeepUndone(q, DoneMask(q));
    DoneMaskOfKept(q);
    KeptFlagsFalse(DoneMask(q));
    NothingDone(kept, DoneMask(kept));
  }

  /** The second loop of `doDeferedActions` as written: each recorded position is erased in turn
      from the vector, which is shorter by one after every erase, so the positions after the first
      stand for elements one further on each time (an erase past the end erases nothing). */
  function EraseStale<T>(q: seq<T>, positions: seq<int>): seq<T>
    decreases |positions|
  {
    if positions == [] then q
    else
      var p := positions[0];
      EraseStale(if 0 <= p < |q| then q[..p] + q[p + 1..] else q, positions[1..])
  }

  /** The positions the first loop of `doDeferedActions` records: exactly those of the done
      actions, front to back. */
  function DoneIndices(done: seq<bool>): (r: seq<int>)
    ensures forall k :: 0 <= k < |r| ==> 0 <= r[k] < |done| && done[r[k]]
    ensures forall i :: 0 <= i < |done| && done[i] ==> i in r
    ensures forall a, b :: 0 <= a < b < |r| ==> r[a] < r[b]
  {
    if done == [] then [] else
      var last := |done| - 1;
      var prefix := DoneIndices(done[..last]);
      assert forall i :: 0 <= i < last && done[i] ==> done[..last][i];
      prefix + (if done[last] then [last] else [])
  }

  /** With two actions done in the same poll, the stale positions erase the second done action's
      neighbour instead of it: of [done, done, pending] the pending action is dropped and a done
      one kept, while the intended result keeps exactly the pending one. */
  lemma StaleEraseDropsPending()
    ensures DoneIndices([true, true, false]) == [0, 1]
    ensures EraseStale([10, 20, 30], DoneIndices([true, true, false])) == [20]
    ensures KeepUndone([10, 20, 30], [true, true, false]) == [30]
  {
    assert [true, true, false][..2] == [true, true];
    assert [true, true][..1] == [true];
    assert [true][..0] == [];
    assert [10, 20, 30][..2] == [10, 20];
    assert [10, 20][..1] == [10];
    assert [10][..0] == [];
    assert [10, 20, 30][..0] + [10, 20, 30][1..] == [20, 30];
    assert [20, 30][..1] + [20, 30][2..] == [20];
  }

  class Controls {
    var grabbedCursor: bool
    var resetMouse: bool
    var lastX: real
    var lastY: real
    const lastKeyPressTime: TimeRef
    const lastClickTime: TimeRef
    var deferedActions: seq<DeferedAction>

    /** The two debounce variables are distinct: keys and mouse buttons debounce separately. */
    predicate Valid() {
      lastKeyPressTime != lastClickTime
    }

    /** A controller with the cursor released, no pending reset, no queued action and both
        debounce variables at time 0. */
    constructor()
      ensures Valid() && !grabbedCursor && !resetMouse && deferedActions == []
      ensures lastKeyPressTime.value == 0.0 && lastClickTime.value == 0.0
      ensures fresh(lastKeyPressTime) && fresh(lastClickTime)
    {
      grabbedCursor := false;
      resetMouse := false;
      lastX, lastY := 0.0, 0.0;
      lastKeyPressTime := new TimeRef(0.0);
      lastClickTime := new TimeRef(0.0);
      deferedActions := [];
    }

    /** `mouseCallback`: with the cursor grabbed, the rotation is the cursor's movement since
        the last position, x to the right and y upwards; right after a reset the movement is
        zero. Without a grabbed cursor nothing happens. */
    method MouseCallback(xpos: real, ypos: real) returns (force: Option<Offset>)
      modifies this
      ensures !old(grabbedCursor) ==>
                force == None && resetMouse == old(resetMouse) && lastX == old(lastX) && lastY == old(lastY)
      ensures old(grabbedCursor) ==>
                && lastX == xpos && lastY == ypos && !resetMouse
                && force == if old(resetMouse) then Some(Offset(0.0, 0.0))
                            else Some(Offset(xpos - old(lastX), old(lastY) - ypos))
      ensures grabbedCursor == old(grabbedCursor) && deferedActions == old(deferedActions)
    {
      force := None;
      if grabbedCursor {
        if resetMouse {
          lastX := xpos;
          lastY := ypos;
          resetMouse := false;
        }
        var xoffset := xpos - lastX;
        var yoffset := lastY - ypos;
        lastX := xpos;
        lastY := ypos;
        force := Some(Offset(xoffset, yoffset));
      }
    }

    /** `handleClicks`: a pressed left button places a cube and a pressed right button removes
        one, each when its debounce accepts. Both share `lastClickTime`, so the right button is
        measured against the left button's press when both are down. */
    method HandleClicks(leftPressed: bool, rightPressed: bool, tLeft: real, tRight: real)
      returns (actions: seq<Action>)
      modifies lastClickTime
      ensures var t0 := old(lastClickTime.value);
        var t1 := if leftPressed then tLeft else t0;
        && lastClickTime.value == (if rightPressed then tRight else t1)
        && actions == (if leftPressed && tLeft - t0 > DEBOUNCE_TIME then [PLACE_CUBE] else [])
                      + (if rightPressed && tRight - t1 > DEBOUNCE_TIME then [REMOVE_CUBE] else [])
      ensures leftPressed && rightPressed && tRight - tLeft <= DEBOUNCE_TIME ==> actions != [PLACE_CUBE, REMOVE_CUBE]
    {
      actions := [];
      if leftPressed {
        var fired := Debounce(lastClickTime, tLeft);
        if fired {
          actions := actions + [PLACE_CUBE];
        }
      }
      if rightPressed {
        var fired := Debounce(lastClickTime, tRight);
        if fired {
          actions := actions + [REMOVE_CUBE];
        }
      }
    }

    /** `handleToggleFocus`: an F press that passes the key debounce toggles the focus flags and
        switches the cursor mode; F not pressed leaves even the debounce time alone. */
    method HandleToggleFocus(fPressed: bool, now: real) returns (request: Option<InputRequest>)
      requires Valid()
      modifies this, lastKeyPressTime
      ensures var fired := fPressed && now - old(lastKeyPressTime.value) > DEBOUNCE_TIME;
        && lastKeyPressTime.value == (if fPressed then now else old(lastKeyPressTime.value))
        && FocusState(grabbedCursor, resetMouse) ==
             (if fired then ToggleFocus(old(FocusState(grabbedCursor, resetMouse)))
              else old(FocusState(grabbedCursor, resetMouse)))
        && request == (if !fired then None
                       else if old(grabbedCursor) then Some(InputRequest(CaptureInput, Some(CursorNormal)))
                       else Some(InputRequest(PassthroughInput, Some(CursorDisabled))))
      ensures lastX == old(lastX) && lastY == old(lastY) && deferedActions == old(deferedActions)
      ensures lastClickTime.value == old(lastClickTime.value)
    {
      request := None;
      if fPressed {
        var fired := Debounce(lastKeyPressTime, now);
        if fired {
          if grabbedCursor {
            grabbedCursor := false;
            request := Some(InputRequest(CaptureInput, Some(CursorNormal)));
          } else {
            grabbedCursor := true;
            resetMouse := true;
            request := Some(InputRequest(PassthroughInput, Some(CursorDisabled)));
          }
        }
      }
    }

    /** `doAfter`: the action goes to the end of the queue; the queue before it is untouched. */
    method DoAfter(isDone: DoneFlag, fn: DeferredFn)
      modifies this
      ensures deferedActions == old(deferedActions) + [DeferedAction(isDone, fn)]
      ensures grabbedCursor == old(grabbedCursor) && resetMouse == old(resetMouse)
      ensures lastX == old(lastX) && lastY == old(lastY)
    {
      deferedActions := deferedActions + [DeferedAction(isDone, fn)];
    }

    /** `goToApp`, without the camera targeting: input passes through to the window manager, the
        cursor flag is released with a mouse reset pending, and focusing the app is deferred
        until the camera move signals `isDone`. The GLFW cursor mode is left as it is. */
    method GoToApp(app: AppId, isDone: DoneFlag) returns (request: InputRequest)
      modifies this
      ensures request == InputRequest(PassthroughInput, None)
      ensures !grabbedCursor && resetMouse
      ensures deferedActions == old(deferedActions) + [DeferedAction(isDone, FocusApp(app))]
      ensures lastX == old(lastX) && lastY == old(lastY)
    {
      request := InputRequest(PassthroughInput, None);
      resetMouse := true;
      grabbedCursor := false;
      DoAfter(isDone, FocusApp(app));
    }

    /** `handleToggleApp`: with an app looked at, an R press that passes the key debounce goes to
        it. The key debounce is consulted only when both hold. */
    method HandleToggleApp(lookedAt: Option<AppId>, rPressed: bool, now: real, isDone: DoneFlag)
      returns (request: Option<InputRequest>)
      requires Valid()
      modifies this, lastKeyPressTime
      ensures var consulted := lookedAt != None && rPressed;
        var fired := consulted && now - old(lastKeyPressTime.value) > DEBOUNCE_TIME;
        && lastKeyPressTime.value == (if consulted then now else old(lastKeyPressTime.value))
        && (fired ==> request == Some(InputRequest(PassthroughInput, None)) && !grabbedCursor && resetMouse
                      && deferedActions == old(deferedActions) + [DeferedAction(isDone, FocusApp(lookedAt.value))])
        && (!fired ==> request == None && grabbedCursor == old(grabbedCursor) && resetMouse == old(resetMouse)
                       && deferedActions == old(deferedActions))
      ensures lastX == old(lastX) && lastY == old(lastY)
      ensures lastClickTime.value == old(lastClickTime.value)
    {
      request := None;
      if lookedAt.Some? {
        if rPressed {
          var fired := Debounce(lastKeyPressTime, now);
          if fired {
            var r := GoToApp(lookedAt.value, isDone);
            request := Some(r);
          }
        }
      }
    }

    /** `doDeferedActions`, with the intended removal: every action whose flag is set runs, in
        queue order (grabbing the cursor; the window-manager focus requests are returned in
        `ran`), and exactly those actions leave the queue, the others staying in order. The
        erase loop as written is `EraseStale`. */
    method DoDeferedActions() returns (ran: seq<DeferedAction>)
      modifies this
      ensures var q := old(deferedActions); var done := old(DoneMask(deferedActions));
        deferedActions == KeepUndone(q, done) && ran == DoneOnes(q, done)
      ensures grabbedCursor == (old(grabbedCursor) || ran != [])
      ensures resetMouse == old(resetMouse) && lastX == old(lastX) && lastY == old(lastY)
    {
      var q := deferedActions;
      ghost var done := DoneMask(q);
      var kept: seq<DeferedAction> := [];
      ran := [];
      var i := 0;
      while i < |q|
        invariant 0 <= i <= |q|
        invariant kept == KeepUndone(q[..i], done[..i]) && ran == DoneOnes(q[..i], done[..i])
        invariant grabbedCursor == (old(grabbedCursor) || ran != [])
        invariant resetMouse == old(resetMouse) && lastX == old(lastX) && lastY == old(lastY)
      {
        PartitionStep(q, done, i);
        if q[i].isDone.value {
          match q[i].fn
          case FocusApp(_) => grabbedCursor := true;
          ran := ran + [q[i]];
        } else {
          kept := kept + [q[i]];
        }
        i := i + 1;
      }
      assert q[..i] == q && done[..i] == done;
      deferedActions := kept;
    }
  }
}
