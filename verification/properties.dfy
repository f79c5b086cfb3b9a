/** Invariants of the calculator's history and the properties that relate
    several calls: undo reverses an operation, redo re-executes the current
    step, and every reachable history keeps its divisors non-zero. */
module CalculatorProperties {
  import opened JavaInt
  import opened Calculator

  /** Every DEVI step has a non-zero operand: only `devi` creates DEVI
      steps, and it refuses zero. */
  predicate DivisorsNonZero(h: History) {
    forall i :: 0 <= i < |h| && h[i].operation == DEVI ==> h[i].currentNum != 0
  }

  /** Every step's result follows from its own operation and operand and its
      predecessor's result; the first step's result is its operand. */
  predicate Linked(h: History) {
    && (|h| > 0 ==> h[0].result == h[0].currentNum)
    && forall i :: 0 < i < |h| ==>
         CalcResult(h[i].operation, h[i].currentNum, h[i - 1].result) == Ok(h[i].result)
  }

  predicate Valid(h: History) {
    DivisorsNonZero(h) && Linked(h)
  }

  /** A call of `add`, `sub`, `multi`, `devi`, `undo` or `redo`. `getResult`
      changes nothing and is modelled by `GetResult` alone. */
  datatype Request =
    | AddCall(num: Int32)
    | SubCall(num: Int32)
    | MultiCall(num: Int32)
    | DeviCall(num: Int32)
    | UndoCall
    | RedoCall

  function Perform(h: History, req: Request): Outcome {
    match req
    case AddCall(n) => Add(h, n)
    case SubCall(n) => Sub(h, n)
    case MultiCall(n) => Multi(h, n)
    case DeviCall(n) => Devi(h, n)
    case UndoCall => Undo(h)
    case RedoCall => Redo(h)
  }

  /** The final state after a sequence of calls, and what each call
      returned or threw. */
  datatype Trace = Trace(history: History, returned: seq<Result<Int32>>)

  function Run(h: History, reqs: seq<Request>): (t: Trace)
    ensures |t.returned| == |reqs|
    decreases |reqs|
  {
    if reqs == [] then Trace(h, [])
    else
      var o := Perform(h, reqs[0]);
      var t := Run(o.history, reqs[1..]);
      Trace(t.history, [o.returned] + t.returned)
  }

  /** The (operation, operand) pairs a history records, oldest first. */
  function Recorded(h: History): (ops: seq<(Operation, Int32)>)
    ensures |ops| == |h|
    ensures forall i :: 0 <= i < |h| ==> ops[i] == (h[i].operation, h[i].currentNum)
  {
    if h == [] then [] else Recorded(h[..|h| - 1]) + [(Top(h).operation, Top(h).currentNum)]
  }

  /** Executes recorded pairs one after another on a fresh calculator. */
  function Replay(ops: seq<(Operation, Int32)>): (r: Result<History>)
    ensures r.Ok? ==> |r.value| == |ops|
  {
    if ops == [] then Ok([])
    else
      match Replay(ops[..|ops| - 1])
      case Ok(h) => Exec(h, ops[|ops| - 1].0, ops[|ops| - 1].1)
      case Err(e) => Err(e)
  }

  /** Whatever a replay builds is linked and records exactly the pairs
      it was given. */
  lemma {:induction false} ReplayBuildsLinked(ops: seq<(Operation, Int32)>)
    requires Replay(ops).Ok?
    ensures Linked(Replay(ops).value) && Recorded(Replay(ops).value) == ops
  {
    if ops != [] {
      var init := ops[..|ops| - 1];
      ReplayBuildsLinked(init);
      var h0 := Replay(init).value;
      var h := Replay(ops).value;
      ExecKeepsLinked(h0, ops[|ops| - 1].0, ops[|ops| - 1].1);
      assert h[..|h| - 1] == h0;
    }
  }

  /** A linked history is rebuilt exactly by replaying its own records. */
  lemma {:induction false} LinkedReplays(h: History)
    requires Linked(h)
    ensures Replay(Recorded(h)) == Ok(h)
  {
    if h != [] {
      var pre := h[..|h| - 1];
      assert Linked(pre) by {
        forall i | 0 < i < |pre|
          ensures CalcResult(pre[i].operation, pre[i].currentNum, pre[i - 1].result) == Ok(pre[i].result)
        {
          assert pre[i] == h[i] && pre[i - 1] == h[i - 1];
        }
      }
      LinkedReplays(pre);
      var ops := Recorded(h);
      assert ops[..|ops| - 1] == Recorded(pre);
      if pre != [] {
        assert CalcResult(Top(h).operation, Top(h).currentNum, Top(pre).result) == Ok(Top(h).result);
      }
      assert h == pre + [Top(h)];
    }
  }

  /** A history is linked exactly when executing its own recorded
      operations on a fresh calculator builds it again. */
  lemma LinkedIffReplay(h: History)
    ensures Linked(h) <==> Replay(Recorded(h)) == Ok(h)
  {
    if Linked(h) {
      LinkedReplays(h);
    }
    if Replay(Recorded(h)) == Ok(h) {
      ReplayBuildsLinked(Recorded(h));
    }
  }

  /** An operation that succeeds keeps a history linked. */
  lemma ExecKeepsLinked(h: History, op: Operation, num: Int32)
    requires Linked(h) && Exec(h, op, num).Ok?
    ensures Linked(Exec(h, op, num).value)
  {
  }

  /** `add`, `sub`, `multi` and `devi` all execute `exec`; only `devi`
      refuses zero. On a fresh calculator the result is the operand. */
  lemma ApplyIsExec(h: History, op: Operation, num: Int32)
    ensures Apply(h, op, num).returned.Err? <==> op == DEVI && num == 0
    ensures op == DEVI && num == 0 ==> Apply(h, op, num) == Outcome(h, Err(UnsupportedOperation))
    ensures !(op == DEVI && num == 0) ==>
      Exec(h, op, num).Ok? && Apply(h, op, num).history == Exec(h, op, num).value
    ensures h == [] && !(op == DEVI && num == 0) ==>
      Apply(h, op, num) == Outcome([Step(num, op, num)], Ok(num))
  {
  }

  /** Any `Request` keeps a valid history valid, and none of them ever divides
      by zero on it: `redo`, which skips the zero check, re-executes only
      DEVI steps whose operand `devi` already checked. */
  lemma PerformKeepsValid(h: History, req: Request)
    requires Valid(h)
    ensures Valid(Perform(h, req).history)
    ensures Perform(h, req).returned != Err(ArithmeticException)
  {
  }

  /** Along any sequence of calls from a valid history, the history stays
      valid and no call throws `ArithmeticException`. */
  lemma {:induction false} RunKeepsValid(h: History, reqs: seq<Request>)
    requires Valid(h)
    ensures Valid(Run(h, reqs).history)
    ensures forall i :: 0 <= i < |reqs| ==> Run(h, reqs).returned[i] != Err(ArithmeticException)
    decreases |reqs|
  {
    if reqs != [] {
      PerformKeepsValid(h, reqs[0]);
      RunKeepsValid(Perform(h, reqs[0]).history, reqs[1..]);
    }
  }

  /** From a fresh calculator, no sequence of `add`, `sub`, `multi`, `devi`,
      `undo` and `redo` calls throws `ArithmeticException`. Of these calls,
      only `devi(0)` can throw. */
  lemma NeverDividesByZero(reqs: seq<Request>)
    ensures forall i :: 0 <= i < |reqs| ==>
      Run([], reqs).returned[i] != Err(ArithmeticException)
  {
    RunKeepsValid([], reqs);
  }

  /** Undo after a successful operation restores the previous history and
      reports its value. */
  lemma UndoAfterApply(h: History, op: Operation, num: Int32)
    requires op == DEVI ==> num != 0
    ensures Undo(Apply(h, op, num).history) == Outcome(h, Ok(CurrentResult(h)))
  {
  }

  /** `redo` on a non-empty history is the public call of the current
      step's operation with its operand, provided that step is not a
      division by zero (which no reachable history has). */
  lemma RedoIsReapply(h: History)
    requires h != [] && !(Top(h).operation == DEVI && Top(h).currentNum == 0)
    ensures Redo(h) == Apply(h, Top(h).operation, Top(h).currentNum)
    ensures |Redo(h).history| == |h| + 1
  {
  }

  /** `n` calls of `undo` in a row. */
  function Undos(n: nat): seq<Request> {
    seq(n, _ => UndoCall)
  }

  /** `n` undos drop the top `n` steps (all of them if there are fewer),
      and the i-th reports the value then current. */
  lemma {:induction false} RepeatedUndo(h: History, n: nat)
    ensures Run(h, Undos(n)).history == h[..if n <= |h| then |h| - n else 0]
    ensures forall i :: 0 <= i < n ==>
      Run(h, Undos(n)).returned[i] == Ok(CurrentResult(h[..if i < |h| then |h| - i - 1 else 0]))
    decreases n
  {
    if n > 0 {
      var h' := Undo(h).history;
      assert Undos(n)[1..] == Undos(n - 1);
      RepeatedUndo(h', n - 1);
      assert h' == h[..if 0 < |h| then |h| - 1 else 0];
      forall i | 0 <= i < n
        ensures Run(h, Undos(n)).returned[i] == Ok(CurrentResult(h[..if i < |h| then |h| - i - 1 else 0]))
      {
        if i > 0 {
          assert Run(h, Undos(n)).returned[i] == Run(h', Undos(n - 1)).returned[i - 1];
          assert h'[..if i - 1 < |h'| then |h'| - (i - 1) - 1 else 0] ==
                 h[..if i < |h| then |h| - i - 1 else 0];
        }
      }
    }
  }

  /** Undo on a fresh calculator is a no-op returning 0, however often. */
  lemma UndoOnEmpty(n: nat)
    ensures Run([], Undos(n)).history == []
    ensures forall i :: 0 <= i < n ==> Run([], Undos(n)).returned[i] == Ok(0)
  {
    RepeatedUndo([], n);
  }

  // The states the class's own self-test passes through.
  const S1: History := [Step(1, ADD, 1)]
  const S2: History := S1 + [Step(2, ADD, 3)]
  const S3: History := S2 + [Step(1, SUB, 2)]
  const S4: History := S3 + [Step(8, MULTI, 16)]
  const S5: History := S4 + [Step(4, DEVI, 4)]
  const S6: History := S5 + [Step(4, MULTI, 16)]
  const S7: History := S6 + [Step(4, MULTI, 64)]

  /** The self-test's operations, each from the state the one before left. */
  lemma SelfTestOperations()
    ensures Add([], 1) == Outcome(S1, Ok(1))
    ensures Add(S1, 2) == Outcome(S2, Ok(3))
    ensures Sub(S2, 1) == Outcome(S3, Ok(2))
    ensures Multi(S3, 8) == Outcome(S4, Ok(16))
    ensures Devi(S4, 4) == Outcome(S5, Ok(4))
    ensures Multi(S5, 4) == Outcome(S6, Ok(16))
    ensures Redo(S6) == Outcome(S7, Ok(64))
  {
  }

  /** The self-test's undos, from the seven-step state down past empty,
      and its last `redo`. */
  lemma SelfTestUndos()
    ensures Undo(S7) == Outcome(S6, Ok(16))
    ensures Undo(S6) == Outcome(S5, Ok(4))
    ensures Undo(S5) == Outcome(S4, Ok(16))
    ensures Undo(S4) == Outcome(S3, Ok(2))
    ensures Undo(S3) == Outcome(S2, Ok(3))
    ensures Undo(S2) == Outcome(S1, Ok(1))
    ensures Undo(S1) == Outcome([], Ok(0))
    ensures Undo([]) == Outcome([], Ok(0))
    ensures Redo([]) == Outcome([], Ok(0))
  {
  }

  /** A run visits the states its calls lead through one by one, and
      collects what each call returned. */
  lemma {:induction false} RunFollows(
    states: seq<History>, calls: seq<Request>, printed: seq<Result<Int32>>)
    requires |states| == |calls| + 1 && |printed| == |calls|
    requires forall k :: 0 <= k < |calls| ==>
      Perform(states[k], calls[k]) == Outcome(states[k + 1], printed[k])
    ensures Run(states[0], calls) == Trace(states[|calls|], printed)
    decreases |calls|
  {
    if calls != [] {
      RunFollows(states[1..], calls[1..], printed[1..]);
      assert printed == [printed[0]] + printed[1..];
    }
  }

  /** The calls of the class's own self-test and the values it prints. */
  lemma SelfTest()
    ensures Run([], [AddCall(1), AddCall(2), SubCall(1), MultiCall(8), DeviCall(4),
                     MultiCall(4), RedoCall, UndoCall, UndoCall, UndoCall, UndoCall,
                     UndoCall, UndoCall, UndoCall, UndoCall, RedoCall]).returned
         == [Ok(1), Ok(3), Ok(2), Ok(16), Ok(4), Ok(16), Ok(64), Ok(16), Ok(4),
             Ok(16), Ok(2), Ok(3), Ok(1), Ok(0), Ok(0), Ok(0)]
  {
    SelfTestOperations();
    SelfTestUndos();
    var calls := [AddCall(1), AddCall(2), SubCall(1), MultiCall(8), DeviCall(4),
                  MultiCall(4), RedoCall, UndoCall, UndoCall, UndoCall, UndoCall,
                  UndoCall, UndoCall, UndoCall, UndoCall, RedoCall];
    var states: seq<History> :=
      [[], S1, S2, S3, S4, S5, S6, S7, S6, S5, S4, S3, S2, S1, [], [], []];
    var printed := [Ok(1), Ok(3), Ok(2), Ok(16), Ok(4), Ok(16), Ok(64), Ok(16), Ok(4),
                    Ok(16), Ok(2), Ok(3), Ok(1), Ok(0), Ok(0), Ok(0)];
    RunFollows(states, calls, printed);
  }
}
