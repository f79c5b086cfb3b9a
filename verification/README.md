# Calculator with undo and redo, in Dafny

This project models `com.amway.calc.Calculator`. It is an `int` accumulator,
and its whole state is one field: a backward-linked chain of `ValueDto` steps.
Each step records an operand (`currentNum`), an `OperationEnum` and the
accumulator's value after the step. The model covers:

- the public operations `add`, `sub`, `multi`, `devi`, `undo`, `redo` and `getResult`;
- the private `exec`, `init`, `handlerCalc` and `calcResult`;
- the Java `int` arithmetic they rely on.

Files:

- `java_int.dfy` (module `JavaInt`): Java 32-bit `int` arithmetic over unbounded integers.
  `Wrap32` keeps the low 32 bits. `TruncDiv` is division rounding toward zero.
  `JavaAdd`, `JavaSub`, `JavaMul` and `JavaDiv` follow sections 15.17.1, 15.17.2
  and 15.18.2 of the Java Language Specification.
- `calculator.dfy` (module `Calculator`): the data model and the operations.
  - The chain is a `History = seq<Step>`, oldest step first. The current step is
    the last element, and a step's `pre` link is the element before it.
    The empty sequence is the calculator with no current step (`valueDto == null`):
    before any call, or after `undo` has dropped the first step.
  - `add`, `sub`, `multi`, `devi`, `undo` and `redo` are pure functions that
    return an `Outcome`: the new history, plus either the returned `int` or
    the exception thrown. `getResult` returns the `int` itself and needs a
    non-empty history.
- `properties.dfy` (module `CalculatorProperties`): invariants of the history
  and properties that relate several calls.
  - `Linked`: every step's result follows from its predecessor.
  - `DivisorsNonZero`: every DEVI step has a non-zero operand.
  - `Run` is a sequence of calls.
  - `SelfTest` is the class's own `main` as a lemma.

Three behaviours of the code are easy to misread:

- **The first step ignores its operation.** `init` stores `result := currentNum`.
  So on a fresh calculator `sub(3)` gives 3, `multi(5)` gives 5 and `devi(4)` gives 4.
  They do not give -3, 0 and 0. The `Linked` invariant states this: the first
  step's result is its operand.
- **`getResult` needs a non-empty history.** It dereferences the current step
  without a null check, so `GetResult` requires `|h| > 0`. It does not return 0.
  The value-or-0 reading is `CurrentResult`, which is what `undo` and the
  empty-history `redo` return.
- **Division by zero can fail in two places.** `devi(0)` throws
  `UnsupportedOperationException` before any computation (`UnsupportedOperation`).
  Java's `/` in `calcResult` would throw `ArithmeticException` on a zero divisor.
  `redo` does not repeat `devi`'s zero check, so the model keeps that second
  error path. `NeverDividesByZero` proves that no sequence of `add`, `sub`,
  `multi`, `devi`, `undo` and `redo` calls from a fresh calculator ever
  reaches it.
  In both cases the history is left as it was. `calcResult` is evaluated before
  the field is assigned.

## Model

| member | source | states |
|---|---|---|
| JavaInt.Wrap32 | src/main/java/com/amway/calc/Calculator.java:176-184 | the result is congruent to the exact value modulo 2^32 and lies in `int` range. It equals the exact value whenever that fits. |
| JavaInt.TruncDiv | src/main/java/com/amway/calc/Calculator.java:185-186 | the quotient leaves a remainder smaller than the divisor in magnitude, with the sign of the dividend (rounding toward zero). The quotient is no larger than the dividend in magnitude. |
| JavaInt.JavaAdd | src/main/java/com/amway/calc/Calculator.java:176-178 | `res + currentNum` wraps modulo 2^32, and is exact when the sum fits in an `int` |
| JavaInt.JavaSub | src/main/java/com/amway/calc/Calculator.java:179-181 | `res - currentNum` wraps modulo 2^32, and is exact when the difference fits |
| JavaInt.JavaMul | src/main/java/com/amway/calc/Calculator.java:182-184 | `res * currentNum` wraps modulo 2^32, and is exact when the product fits |
| JavaInt.JavaDiv | src/main/java/com/amway/calc/Calculator.java:185-186 | `res / currentNum` is the truncated quotient, except `MIN / -1`, which is `MIN` |
| Calculator.CalcResult | src/main/java/com/amway/calc/Calculator.java:173-192 | throws exactly on DEVI with operand 0. Otherwise the result agrees with the exact sum, difference, product or truncated quotient modulo 2^32, and equals it when it fits. |
| Calculator.Exec | src/main/java/com/amway/calc/Calculator.java:123-163 | on an empty history, one step whose result is the operand, whatever the operation. Otherwise it throws exactly on a zero divisor, or pushes one step carrying the operation and operand, with result `calcResult(op, num, top.result)`, and earlier steps unchanged. |
| Calculator.GetResult | src/main/java/com/amway/calc/Calculator.java:20-22 | needs a current step; returns the accumulator's current value |
| Calculator.Add | src/main/java/com/amway/calc/Calculator.java:45-47 | pushes one step whose result is the wrapped sum with the current value (0 when empty), keeps earlier steps, and returns the new current value |
| Calculator.Sub | src/main/java/com/amway/calc/Calculator.java:55-57 | pushes one step and returns the new value. The first step's result is the operand itself; later results are the wrapped difference. |
| Calculator.Multi | src/main/java/com/amway/calc/Calculator.java:65-67 | pushes one step and returns the new value. The first step's result is the operand itself; later results are the wrapped product. |
| Calculator.Devi | src/main/java/com/amway/calc/Calculator.java:75-81 | a zero operand throws `UnsupportedOperation` with the history unchanged, and only then does it throw. Otherwise it pushes one step: the operand itself first, the Java quotient later. |
| Calculator.Undo | src/main/java/com/amway/calc/Calculator.java:89-101 | on an empty history, returns 0 and changes nothing. Otherwise it drops exactly the top step and returns the new current value (0 if now empty). |
| Calculator.Redo | src/main/java/com/amway/calc/Calculator.java:108-115 | on an empty history, returns 0 with no change. Otherwise it pushes a step with the top step's own operation and operand on top of it, whose result is `calcResult` of that operation and operand applied to the top step's result, and returns that new current value. It throws exactly when the top step is a DEVI by 0, and then nothing changes. |
| CalculatorProperties.ExecKeepsLinked | src/main/java/com/amway/calc/Calculator.java:140-163 | a successful `exec` keeps every step's result consistent with its predecessor |
| CalculatorProperties.ReplayBuildsLinked | src/main/java/com/amway/calc/Calculator.java:123-163 | executing any list of operations from a fresh calculator builds a linked history that records exactly those operations |
| CalculatorProperties.LinkedReplays | src/main/java/com/amway/calc/Calculator.java:123-163 | a linked history is rebuilt exactly by executing its own recorded operations from a fresh calculator |
| CalculatorProperties.LinkedIffReplay | src/main/java/com/amway/calc/Calculator.java:123-163 | a history is linked if and only if replaying its records from scratch reproduces it |
| CalculatorProperties.ApplyIsExec | src/main/java/com/amway/calc/Calculator.java:45-81 | the four public operations fail only for `devi(0)`, which leaves the state unchanged. Otherwise they are `exec`; on a fresh calculator the returned value is the operand. |
| CalculatorProperties.PerformKeepsValid | src/main/java/com/amway/calc/Calculator.java:45-115 | every call of `add`, `sub`, `multi`, `devi`, `undo` or `redo` keeps a history linked with non-zero DEVI operands, and never throws `ArithmeticException` on one |
| CalculatorProperties.RunKeepsValid | src/main/java/com/amway/calc/Calculator.java:45-115 | along any sequence of calls from a valid history, the history stays valid and no call throws `ArithmeticException` |
| CalculatorProperties.NeverDividesByZero | src/main/java/com/amway/calc/Calculator.java:108-115 | from a fresh calculator, no sequence of `add`, `sub`, `multi`, `devi`, `undo` and `redo` calls ever divides by zero, even though `redo` skips `devi`'s zero check |
| CalculatorProperties.UndoAfterApply | src/main/java/com/amway/calc/Calculator.java:89-101 | an operation that succeeds followed by `undo` restores the previous history exactly and returns its value |
| CalculatorProperties.RedoIsReapply | src/main/java/com/amway/calc/Calculator.java:108-115 | on a non-empty history whose top step is not a DEVI by 0, `redo` is the public call of the top step's operation and operand, and grows the history by one |
| CalculatorProperties.RepeatedUndo | src/main/java/com/amway/calc/Calculator.java:89-101 | `n` undos drop the top `n` steps (all of them if there are fewer), and the i-th returns the value then current |
| CalculatorProperties.UndoOnEmpty | src/main/java/com/amway/calc/Calculator.java:89-93 | any number of undos on a fresh calculator leave it empty and each returns 0 |
| CalculatorProperties.RunFollows | src/main/java/com/amway/calc/Calculator.java:280-297 | a sequence of calls ends in the state its last call leaves, and returns what each call returned |
| CalculatorProperties.SelfTestOperations | src/main/java/com/amway/calc/Calculator.java:281-288 | the self-test's `add 1, add 2, sub 1, multi 8, devi 4, multi 4, redo` return 1, 3, 2, 16, 4, 16, 64 and build the expected chain |
| CalculatorProperties.SelfTestUndos | src/main/java/com/amway/calc/Calculator.java:289-297 | the undos from the seven-step chain return 16, 4, 16, 2, 3, 1, 0, 0, and `redo` on the empty chain returns 0 |
| CalculatorProperties.SelfTest | src/main/java/com/amway/calc/Calculator.java:280-297 | the whole self-test run prints 1, 3, 2, 16, 4, 16, 64, 16, 4, 16, 2, 3, 1, 0, 0, 0 |

## Left out

- `synchronized` methods and the `volatile` field: they serve thread safety only. Each call is modelled as one atomic step on an immutable history.
- The `Calculator` object, its private constructor and `build()`: the object's one field is the `History` value that every call takes and returns. A fresh calculator is the empty history.
- The hand-written `ValueDto.Builder` and Lombok's `@Getter`: they are construction plumbing. `Step` is an immutable datatype.
- The `type` display strings of `OperationEnum`: they have no behavioural role.
- The `default` branch of `calcResult`'s `switch`: it is unreachable, because `Operation` is a closed datatype.
- `main`'s printing: this is console output. Its calls and expected values are kept as the `SelfTest` lemma.
- The reclamation of steps that `undo` makes unreachable: this is garbage collection, and a dropped step is simply absent from the sequence.
