/** The calculator: an `int` accumulator whose history is a backward-linked
    chain of steps. The chain is a sequence here, oldest step first, so the
    current step is the last element and the predecessor of `h[i]` is
    `h[i - 1]`; the empty sequence is the calculator before any operation. */
module Calculator {
  import opened JavaInt

  /** The operations of `OperationEnum`. */
  datatype Operation = ADD | SUB | MULTI | DEVI

  /** One `ValueDto`: the operand and operation of a call and the
      accumulator's value after it. Its `pre` link is its position. */
  datatype Step = Step(currentNum: Int32, operation: Operation, result: Int32)

  /** The whole state of a calculator, the chain reached from its one field. */
  type History = seq<Step>

  /** The exceptions a call can throw. */
  datatype Error =
    | UnsupportedOperation  // thrown by `devi(0)` before anything is computed
    | ArithmeticException   // Java's integer `/` by zero

  datatype Result<T> = Ok(value: T) | Err(error: Error)

  /** What a public call leaves behind: the new state, and either the `int`
      it returned or the exception it threw. */
  datatype Outcome = Outcome(history: History, returned: Result<Int32>)

  function Top(h: History): Step
    requires |h| > 0
  {
    h[|h| - 1]
  }

  /** The accumulator's value: the current step's result, 0 before any
      operation. */
  function CurrentResult(h: History): Int32 {
    if h == [] then 0 else Top(h).result
  }

  /** The exact mathematical value that `calcResult` approximates. */
  function Exact(op: Operation, num: int, pre: int): int
    requires op == DEVI ==> num != 0
  {
    match op
    case ADD => pre + num
    case SUB => pre - num
    case MULTI => pre * num
    case DEVI => TruncDiv(pre, num)
  }

  /** `calcResult`: applies `op` with operand `num` to the previous result,
      in Java `int` arithmetic. */
  function CalcResult(op: Operation, num: Int32, pre: Int32): (r: Result<Int32>)
    ensures r.Err? <==> op == DEVI && num == 0
    ensures r.Err? ==> r.error == ArithmeticException
    ensures r.Ok? ==> (Exact(op, num, pre) - r.value) % MODULUS == 0
    ensures r.Ok? && MIN <= Exact(op, num, pre) <= MAX ==> r.value == Exact(op, num, pre)
  {
    match op
    case ADD => Ok(JavaAdd(pre, num))
    case SUB => Ok(JavaSub(pre, num))
    case MULTI => Ok(JavaMul(pre, num))
    case DEVI =>
      if num == 0 then Err(ArithmeticException)
      else
        assert pre == MIN && num == -1 ==> Exact(op, num, pre) - MIN == MODULUS;
        Ok(JavaDiv(pre, num))
  }

  /** `exec`, with `init` and `handlerCalc`: the first step records the
      operand itself as its result whatever the operation; every later step
      applies the operation to the current result and is pushed on top.
      A throw leaves the history as it was. */
  function Exec(h: History, op: Operation, num: Int32): (r: Result<History>)
    ensures h == [] ==> r.Ok? && r.value == [Step(num, op, num)]
    ensures h != [] ==> (r.Err? <==> op == DEVI && num == 0)
    ensures r.Err? ==> r.error == ArithmeticException
    ensures r.Ok? ==> |r.value| == |h| + 1 && r.value[..|h|] == h
    ensures r.Ok? ==> Top(r.value).currentNum == num && Top(r.value).operation == op
    ensures r.Ok? && h != [] ==>
      CalcResult(op, num, Top(h).result) == Ok(Top(r.value).result)
  {
    if h == [] then
      Ok([Step(num, op, num)])
    else
      match CalcResult(op, num, Top(h).result)
      case Ok(v) =>
        assert (h + [Step(num, op, v)])[..|h|] == h;
        Ok(h + [Step(num, op, v)])
      case Err(e) => Err(e)
  }

  /** The state and return value of a public method whose work is `exec`:
      on success it returns `getResult()`, on a throw nothing changed. */
  function Finish(h: History, r: Result<History>): Outcome
    requires r.Ok? ==> |r.value| > 0
  {
    match r
    case Ok(h') => Outcome(h', Ok(GetResult(h')))
    case Err(e) => Outcome(h, Err(e))
  }

  /** `getResult`: the current step's result. The Java method dereferences
      the current step unchecked, so it needs a non-empty history. */
  function GetResult(h: History): (r: Int32)
    requires |h| > 0
    ensures r == CurrentResult(h)
  {
    Top(h).result
  }

  /** `add`. */
  function Add(h: History, num: Int32): (o: Outcome)
    ensures o.returned == Ok(CurrentResult(o.history))
    ensures |o.history| == |h| + 1 && o.history[..|h|] == h
    ensures Top(o.history) == Step(num, ADD, JavaAdd(CurrentResult(h), num))
  {
    Finish(h, Exec(h, ADD, num))
  }

  /** `sub`. The first step stores the operand, not its negation. */
  function Sub(h: History, num: Int32): (o: Outcome)
    ensures o.returned == Ok(CurrentResult(o.history))
    ensures |o.history| == |h| + 1 && o.history[..|h|] == h
    ensures h == [] ==> Top(o.history) == Step(num, SUB, num)
    ensures h != [] ==> Top(o.history) == Step(num, SUB, JavaSub(Top(h).result, num))
  {
    Finish(h, Exec(h, SUB, num))
  }

  /** `multi`. The first step stores the operand, not `0 * num`. */
  function Multi(h: History, num: Int32): (o: Outcome)
    ensures o.returned == Ok(CurrentResult(o.history))
    ensures |o.history| == |h| + 1 && o.history[..|h|] == h
    ensures h == [] ==> Top(o.history) == Step(num, MULTI, num)
    ensures h != [] ==> Top(o.history) == Step(num, MULTI, JavaMul(Top(h).result, num))
  {
    Finish(h, Exec(h, MULTI, num))
  }

  /** `devi`: a zero operand is refused before anything is computed, so the
      history is untouched; otherwise one step is pushed. */
  function Devi(h: History, num: Int32): (o: Outcome)
    ensures num == 0 <==> o.returned.Err?
    ensures num == 0 ==> o == Outcome(h, Err(UnsupportedOperation))
    ensures num != 0 ==> o.returned == Ok(CurrentResult(o.history))
    ensures num != 0 ==> |o.history| == |h| + 1 && o.history[..|h|] == h
    ensures num != 0 && h == [] ==> Top(o.history) == Step(num, DEVI, num)
    ensures num != 0 && h != [] ==>
      Top(o.history) == Step(num, DEVI, JavaDiv(Top(h).result, num))
  {
    if num == 0 then Outcome(h, Err(UnsupportedOperation))
    else Finish(h, Exec(h, DEVI, num))
  }

  /** The public method for `op`. */
  function Apply(h: History, op: Operation, num: Int32): Outcome {
    match op
    case ADD => Add(h, num)
    case SUB => Sub(h, num)
    case MULTI => Multi(h, num)
    case DEVI => Devi(h, num)
  }

  /** `undo`: drops the current step and reports the value now current;
      on an empty history it returns 0 and changes nothing. */
  function Undo(h: History): (o: Outcome)
    ensures o.returned == Ok(CurrentResult(o.history))
    ensures h == [] ==> o.history == []
    ensures h != [] ==> o.history == h[..|h| - 1]
  {
    if h == [] then Outcome(h, Ok(0))
    else
      var pre := h[..|h| - 1];
      Outcome(pre, Ok(if pre == [] then 0 else Top(pre).result))
  }

  /** `redo`: executes the current step's own operation and operand again,
      on top of the current step. There is no record of undone steps, and
      the zero check of `devi` is not repeated. */
  function Redo(h: History): (o: Outcome)
    ensures h == [] ==> o == Outcome([], Ok(0))
    ensures h != [] && o.returned.Ok? ==>
      |o.history| == |h| + 1 && o.history[..|h|] == h &&
      Top(o.history).operation == Top(h).operation &&
      Top(o.history).currentNum == Top(h).currentNum
    ensures o.returned.Err? ==>
      o == Outcome(h, Err(ArithmeticException)) &&
      Top(h).operation == DEVI && Top(h).currentNum == 0
    ensures h != [] && Top(h).operation == DEVI && Top(h).currentNum == 0 ==> o.returned.Err?
    ensures o.returned.Ok? ==> o.returned == Ok(CurrentResult(o.history))
    ensures h != [] && o.returned.Ok? ==>
      CalcResult(Top(h).operation, Top(h).currentNum, Top(h).result) == Ok(Top(o.history).result)
  {
    if h == [] then Outcome(h, Ok(0))
    else Finish(h, Exec(h, Top(h).operation, Top(h).currentNum))
  }
}
