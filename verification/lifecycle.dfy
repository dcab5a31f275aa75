/**
The initialisation guard of the façade: pixy_init, pixy_command and
pixy_close around the single `pixy_initialized` flag. The interpreter's own
state is not modelled: the outcome of its `init` is a parameter and each
operation reports which interpreter entry points it reached.
*/
module Lifecycle {
  import opened Protocol

  /** The façade's state: the `pixy_initialized` flag. */
  datatype Session = Session(initialized: bool)

  /** The state at program start (`pixy_initialized = false`). */
  const Start := Session(false)

  /** What the façade asked of the interpreter. */
  datatype Event =
    | InterpreterInit
    | InterpreterCommand(call: Call)
    | InterpreterClose

  datatype InitResult = InitResult(session: Session, ret: Int32)

  /** pixy_init: run the interpreter's init (whose result is `initResult`),
      return that result, and set the flag only when it is 0. */
  function Init(s: Session, initResult: Int32): (r: InitResult)
    ensures r.ret == initResult
    ensures r.session.initialized <==> s.initialized || initResult == 0
  {
    InitResult(if initResult == 0 then Session(true) else s, initResult)
  }

  /** One pixy_command: the reply the caller sees and the call, if any, that
      reached the interpreter. */
  datatype Exchange = Exchange(reply: Reply, sent: Option<Call>)

  /** pixy_command: refuse with -1, without consulting the interpreter, while
      the flag is unset; otherwise hand the call to the interpreter. */
  function Command(s: Session, oracle: Oracle, call: Call): (r: Exchange)
    ensures Conforms(call, r.reply)
    ensures r.sent.None? <==> !s.initialized
    ensures !s.initialized ==> r.reply.ret == -1
    ensures r.sent.Some? ==> r.sent.value == call && r.reply == oracle(call)
  {
    if !s.initialized then Exchange(Reply(-1, []), None)
    else Exchange(oracle(call), Some(call))
  }

  datatype CloseResult = CloseResult(session: Session, closesInterpreter: bool)

  /** pixy_close: a no-op while the flag is unset; otherwise close the
      interpreter. The flag itself is left as it is. */
  function Close(s: Session): (r: CloseResult)
    ensures r.session == s
    ensures r.closesInterpreter <==> s.initialized
  {
    CloseResult(s, s.initialized)
  }

  /** A sequence of façade calls, used to state properties of whole runs. */
  datatype Op =
    | InitOp(initResult: Int32)
    | CommandOp(call: Call)
    | CloseOp

  datatype Trace = Trace(session: Session, events: seq<Event>)

  function Step(s: Session, oracle: Oracle, op: Op): Trace {
    match op
    case InitOp(result) => Trace(Init(s, result).session, [InterpreterInit])
    case CommandOp(call) =>
      var x := Command(s, oracle, call);
      Trace(s, if x.sent.Some? then [InterpreterCommand(call)] else [])
    case CloseOp =>
      var c := Close(s);
      Trace(c.session, if c.closesInterpreter then [InterpreterClose] else [])
  }

  function Run(s: Session, oracle: Oracle, ops: seq<Op>): Trace
    decreases |ops|
  {
    if |ops| == 0 then Trace(s, [])
    else
      var first := Step(s, oracle, ops[0]);
      var rest := Run(first.session, oracle, ops[1..]);
      Trace(rest.session, first.events + rest.events)
  }

  /** After any run the flag is set exactly when it was set before or some
      pixy_init in the run succeeded: nothing else sets it and nothing clears it. */
  lemma {:induction false} RunInitialized(s: Session, oracle: Oracle, ops: seq<Op>)
    ensures Run(s, oracle, ops).session.initialized
        <==> s.initialized || exists i :: 0 <= i < |ops| && ops[i] == InitOp(0)
    decreases |ops|
  {
    if |ops| > 0 {
      var first := Step(s, oracle, ops[0]);
      RunInitialized(first.session, oracle, ops[1..]);
      if exists i :: 0 <= i < |ops| && ops[i] == InitOp(0) {
        var i :| 0 <= i < |ops| && ops[i] == InitOp(0);
        if i > 0 {
          assert ops[1..][i - 1] == InitOp(0);
        }
      }
      if exists i :: 0 <= i < |ops| - 1 && ops[1..][i] == InitOp(0) {
        var i :| 0 <= i < |ops| - 1 && ops[1..][i] == InitOp(0);
        assert ops[i + 1] == InitOp(0);
      }
    }
  }

  /** Until a pixy_init succeeds, the interpreter is asked only to init: no
      command reaches it and it is never closed. */
  lemma {:induction false} NoCommandBeforeInit(oracle: Oracle, ops: seq<Op>)
    requires forall i :: 0 <= i < |ops| ==> ops[i] != InitOp(0)
    ensures Run(Start, oracle, ops).session == Start
    ensures forall e :: e in Run(Start, oracle, ops).events ==> e == InterpreterInit
    decreases |ops|
  {
    if |ops| > 0 {
      assert ops[0] != InitOp(0);
      NoCommandBeforeInit(oracle, ops[1..]);
    }
  }
}
