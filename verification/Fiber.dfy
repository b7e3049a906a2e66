// The life of a fiber.  The assertions of the program are preconditions.

module Fibers {
  import opened Common

  datatype FiberState = INIT | HOLD | EXEC | TERM | READY | EXCEPT

  /** The state of a fiber and the callback it is to run or is running. */
  datatype FiberVal = FiberVal(state: FiberState, cb: Option<nat>)

  /** How a stretch of execution ends. */
  datatype End = Returns | Throws | YieldsReady | YieldsHold

  /** A fiber that starts with no callback throws at once. */
  function Ran(v: FiberVal, end: End): FiberVal {
    if v.state == INIT && v.cb.None? then FiberVal(EXCEPT, None)
    else
      match end
      case Returns => FiberVal(TERM, None)
      case Throws => FiberVal(EXCEPT, v.cb)
      case YieldsReady => FiberVal(READY, v.cb)
      case YieldsHold => FiberVal(HOLD, v.cb)
  }

  predicate Over(state: FiberState) {
    state == TERM || state == EXCEPT
  }

  /** What `reset` asserts. */
  predicate Resettable(state: FiberState) {
    state == TERM || state == INIT
  }

  class Fiber {
    var state: FiberState
    var cb: Option<nat>

    constructor (cb: Option<nat>)
      ensures Value() == FiberVal(INIT, cb)
    {
      this.state := INIT;
      this.cb := cb;
    }

    function Value(): FiberVal
      reads this
    {
      FiberVal(state, cb)
    }

    method Reset(cb: Option<nat>)
      requires Resettable(state)
      modifies this
      ensures Value() == FiberVal(INIT, cb)
    {
      this.cb := cb;
      state := INIT;
    }

    method SwapIn()
      requires state != EXEC
      modifies this
      ensures Value() == FiberVal(EXEC, old(cb))
    {
      state := EXEC;
    }

    method YieldToReady()
      requires state == EXEC
      modifies this
      ensures Value() == FiberVal(READY, old(cb))
    {
      state := READY;
    }

    method YieldToHold()
      requires state == EXEC
      modifies this
      ensures Value() == FiberVal(HOLD, old(cb))
    {
      state := HOLD;
    }

    /** The end of MainFunc.  A callback that threw is kept. */
    method Finish(threw: bool)
      requires state == EXEC
      modifies this
      ensures Value() == if threw then FiberVal(EXCEPT, old(cb)) else FiberVal(TERM, None)
    {
      if threw {
        state := EXCEPT;
      } else {
        cb := None;
        state := TERM;
      }
    }

    /** One stretch, from swapping in to swapping out. */
    method RunStretch(end: End)
      requires state != EXEC
      modifies this
      ensures Value() == Ran(old(Value()), end)
    {
      var empty := state == INIT && cb.None?;
      SwapIn();
      if empty {
        Finish(true);
      } else {
        match end
        case Returns => Finish(false);
        case Throws => Finish(true);
        case YieldsReady => YieldToReady();
        case YieldsHold => YieldToHold();
      }
    }
  }
}
