# Bankdroid exception blame rewriting, modelled in Dafny

Bankdroid's `ExceptionUtils` edits a thrown `Throwable` before it is reported. The goal is that, in a crash report, the chain looks as if Bankdroid's own code caused it. `blameBankdroid(t)` does this in four steps:

1. It follows `cause` links from `t` to the ultimate cause.
2. It trims the ultimate cause's stack trace, dropping every leading frame whose class is outside the `com.liato.bankdroid.` package.
3. If trimming removed nothing, it stops.
4. Otherwise it clones `t`, gives the clone the trimmed stack, and attaches the clone as the ultimate cause's cause.

The clone copies `t`'s message and stack but not its cause. It is built with the `(String)` constructor of `t`'s class, or of the nearest superclass that has one.

The project has two modules:

- `ExceptionUtils` (`exception_utils.dfy`) is the model. It has these parts:
  - `StackFrame` is a datatype for `StackTraceElement`.
  - `Kind` is one class of the hierarchy. It carries a flag saying whether that class can be built from a message.
  - `Throwable` is a heap class. It has a constant `ancestry` (the runtime class, then each superclass), and mutable `message`, `stackTrace` and `cause` fields.
  - The four operations are `BankdroidifyStacktrace`, `GetUltimateCause`, `CloneException` and `BlameBankdroid`.
  - `BankdroidifyStacktrace` and `CloneException` are loops. Each is specified by a search function: `FirstBankdroidIndex` with `Bankdroidified`, and `FirstConstructibleIndex`.
  - Acyclicity of the cause links is a ghost argument `chain` satisfying `IsCauseChain`. This is the path from `t` to the node that has no cause.
- `ExceptionUtilsTest` (`exception_utils_test.dfy`) replays the scenarios of `ExceptionUtilsTest.java` against the model. It also proves that blaming twice is the same as blaming once.

Three facts about the code shape the model:

- ExceptionUtilsTest.java:31 and :65 assert that the line before the last "Caused by" contains `--- END OF ACTUAL EXCEPTION STACK ---`, but ExceptionUtils.java never adds such a frame. The model follows ExceptionUtils.java and has no such frame. ExceptionUtilsTest.java:53 asserts the opposite for the first "Caused by" (the marker is absent there), which the code, and so the model, satisfies without further ado.
- ExceptionUtilsTest.java:29 and :67 expect the line after the last "Caused by" to start with `\tat com.liato.bankdroid.`. Java's `printStackTrace` prints the frames a cause shares with its enclosing trace as `\t... n more`, and the clone's stack is a suffix of the ultimate cause's stack, so as far as the JDK's rendering goes that line is `\t... n more`. The model states the clone's stack itself (it starts at the first Bankdroid frame) rather than its rendering.
- The stack that gets trimmed is the ultimate cause's own stack (ExceptionUtils.java:27-28), not the stack of `t`.
- The walk along `cause` links at ExceptionUtils.java:47-49 has no hop bound. A cyclic chain is therefore excluded by the precondition.

## Model

| member | source | states |
|---|---|---|
| `ExceptionUtils.IsBankdroidFrameIff` | bankdroid-legacy/src/main/java/com/liato/bankdroid/utils/ExceptionUtils.java:89 | A frame is Bankdroid's exactly when its class name starts with PREFIX: it is at least as long as PREFIX and agrees with it character by character |
| `ExceptionUtils.BankdroidPackageFrame` | bankdroid-legacy/src/main/java/com/liato/bankdroid/utils/ExceptionUtils.java:12 | PREFIX is `com.liato.bankdroid.`, so every class of that package or its subpackages is Bankdroid's |
| `ExceptionUtils.FirstBankdroidIndex` | bankdroid-legacy/src/main/java/com/liato/bankdroid/utils/ExceptionUtils.java:87-92 | The index found is the first whose frame's class name starts with PREFIX; every earlier frame lacks the prefix; there is no index exactly when no frame has the prefix |
| `ExceptionUtils.Bankdroidified` | bankdroid-legacy/src/main/java/com/liato/bankdroid/utils/ExceptionUtils.java:86-96 | The result is a suffix of the input (so never longer). When some frame has the prefix, the result starts at a prefixed frame and every dropped frame lacks it. When none has it, the input comes back unchanged (empty input included) |
| `ExceptionUtils.BankdroidHeadKeepsStack` | bankdroid-legacy/src/main/java/com/liato/bankdroid/utils/ExceptionUtils.java:87-90 | A stack whose first frame already has the prefix is returned whole |
| `ExceptionUtils.BankdroidifiedIdempotent` | bankdroid-legacy/src/main/java/com/liato/bankdroid/utils/ExceptionUtils.java:86-96 | Trimming a trimmed stack returns it unchanged |
| `ExceptionUtils.BankdroidifiedShortensIff` | bankdroid-legacy/src/main/java/com/liato/bankdroid/utils/ExceptionUtils.java:27-32 | Trimming shortens the stack if and only if the first frame lacks the prefix and some later frame has it. This is exactly when blameBankdroid goes past its "already done" return |
| `ExceptionUtils.BankdroidifyStacktrace` | bankdroid-legacy/src/main/java/com/liato/bankdroid/utils/ExceptionUtils.java:86-96 | The forward scan returns exactly `Bankdroidified` of its input |
| `ExceptionUtils.GetUltimateCause` | bankdroid-legacy/src/main/java/com/liato/bankdroid/utils/ExceptionUtils.java:45-51 | On an acyclic chain the walk ends at the chain's last node, which is reachable from `t` and has no cause. It is never null, so the null check at lines 21-25 cannot fire |
| `ExceptionUtils.UltimateCauseOnlyAtEnd` | bankdroid-legacy/src/main/java/com/liato/bankdroid/utils/ExceptionUtils.java:45-51 | The node the walk stops at occurs nowhere earlier in the chain, so setting its cause leaves every other link of the chain as it was |
| `ExceptionUtils.CauseChainGrows` | bankdroid-legacy/src/main/java/com/liato/bankdroid/utils/ExceptionUtils.java:41 | Once the ultimate cause is given a cause that has no cause itself, the cause chain is the old chain followed by that node |
| `ExceptionUtils.FirstConstructibleIndex` | bankdroid-legacy/src/main/java/com/liato/bankdroid/utils/ExceptionUtils.java:59-75 | The class chosen is the first of the class and its superclasses, in order, that can be built from a message; all classes before it cannot; there is none exactly when no class in the hierarchy can |
| `ExceptionUtils.CloneException` | bankdroid-legacy/src/main/java/com/liato/bankdroid/utils/ExceptionUtils.java:58-78 | Returns null exactly when no class in the hierarchy can be built from a message. Otherwise it returns a fresh throwable of the first class that can, with the original's message and stack trace and no cause |
| `ExceptionUtils.BlameBankdroid` | bankdroid-legacy/src/main/java/com/liato/bankdroid/utils/ExceptionUtils.java:19-42 | See the three rules below this table |
| `ExceptionUtils.Throwable.Create` | bankdroid-legacy/src/main/java/com/liato/bankdroid/utils/ExceptionUtils.java:63 | A new throwable of the given class has the given message and no cause |
| `ExceptionUtils.Throwable.SetStackTrace` | bankdroid-legacy/src/main/java/com/liato/bankdroid/utils/ExceptionUtils.java:64 | Replaces the stack trace and touches no other field |
| `ExceptionUtils.Throwable.InitCause` | bankdroid-legacy/src/main/java/com/liato/bankdroid/utils/ExceptionUtils.java:41 | On a throwable without a cause, sets the cause and touches no other field |
| `ExceptionUtilsTest.BankdroidifyStacktraceDropsForeignFrame` | bankdroid-legacy/src/test/java/com/liato/bankdroid/utils/ExceptionUtilsTest.java:92-105 | `[not.bankdroid frame, com.liato.bankdroid frame]` trims to the second frame alone, and trimming that again changes nothing |
| `ExceptionUtilsTest.ForeignStackTrimsToTestFrames` | bankdroid-legacy/src/test/java/com/liato/bankdroid/utils/ExceptionUtilsTest.java:14-32 | A stack `[foreign frame, Bankdroid test frame, junit frame]` trims to its last two frames, and so gets shorter |
| `ExceptionUtilsTest.CloneWonkyException` | bankdroid-legacy/src/test/java/com/liato/bankdroid/utils/ExceptionUtilsTest.java:108-121 | WonkyException has no `(String)` constructor, so the clone is a ConnectException (the superclass) with the same message and stack trace |
| `ExceptionUtilsTest.BlameExceptionRaisedInBankdroid` | bankdroid-legacy/src/test/java/com/liato/bankdroid/utils/ExceptionUtilsTest.java:70-82 | An exception whose stack starts in Bankdroid's test class is left as it was |
| `ExceptionUtilsTest.BlameForeignException` | bankdroid-legacy/src/test/java/com/liato/bankdroid/utils/ExceptionUtilsTest.java:14-32 | A single exception raised by non-Bankdroid code gets a clone as its cause. The clone's stack starts at the Bankdroid test frame, and the exception's own stack is unchanged |
| `ExceptionUtilsTest.BlameForeignExceptionWithCause` | bankdroid-legacy/src/test/java/com/liato/bankdroid/utils/ExceptionUtilsTest.java:37-68 | In a two-node chain, the root's clone is attached below the foreign cause. The first cause keeps its non-Bankdroid stack, and the last cause's stack starts at a Bankdroid frame |
| `ExceptionUtilsTest.BlameBankdroidTwice` | bankdroid-legacy/src/main/java/com/liato/bankdroid/utils/ExceptionUtils.java:27-41 | A second blame never changes anything. After a successful first call it takes the "already done" return. After a first call that changed nothing, it decides the same way |

`BlameBankdroid` follows three rules:

- **When it does nothing.** Nothing changes when trimming the ultimate cause's stack does not shorten it. Nothing changes when `t` cannot be cloned (the outcome that logs a warning).
- **What a success does.** The ultimate cause's cause becomes a fresh clone of `t`. The clone has `t`'s class (or the nearest constructible superclass) and `t`'s message. Its stack is the trimmed ultimate-cause stack, which starts with a Bankdroid frame. It has no cause of its own. The chain grows by exactly that node.
- **What it may write.** Only the ultimate cause's `cause` field is written. No other node's fields change.

## Left out

- Logging through `Timber.w`. It is an external sink, so the model returns an `Outcome` instead. `CloneFailed` is the logged path and `AlreadyBlamed` is the silent "already done" return.
- Java reflection (`getConstructor`, `newInstance` and the four exceptions the source catches at ExceptionUtils.java:66-74). `SecurityException` and `ExceptionInInitializerError`, which these calls can also throw and the source does not catch, are not modelled. Each class carries one flag, `constructibleFromMessage`. The flag is false in all the cases where the source catches an exception and moves on to the superclass.
- `ExceptionUtils.Throwable.Create` assumes that each class's `(String)` constructor passes its argument unchanged to `Throwable(String)` and sets no cause, and that `getMessage` is not overridden. A class that decorates the message (`super("Foo: " + m)`) or sets a cause in that constructor would give a clone whose message differs from the original's, or a clone with a cause, so the chain would grow by more than one node at ExceptionUtils.java:41. `CloneException` and `BlameBankdroid` state the message and the absent cause of the clone under this assumption.
- The stack trace that a Java constructor captures. `Throwable.Create` starts with an empty stack, because `cloneException` overwrites it right away with `setStackTrace`.
- Arrays of `StackTraceElement`. They are modelled as sequences, because `getStackTrace` and `setStackTrace` copy the array, so no aliasing can be observed.
- `ExceptionUtils.Throwable.InitCause` does not model the `IllegalStateException` that `initCause` throws when a cause was already set explicitly. It requires that the throwable has no cause yet. The model's `cause == null` conflates two Java states: a cause never set, and a cause set explicitly to null (by `Throwable(String, Throwable)`, `Throwable(Throwable)` or `initCause(null)`). In the second state `getUltimateCause` still stops at that node (ExceptionUtils.java:47), and Java's `initCause` at :41 then throws `IllegalStateException` out of `blameBankdroid`, where the model returns `Blamed`.
- Cyclic cause chains. On those, the loop at ExceptionUtils.java:47-49 never ends. `GetUltimateCause` and `BlameBankdroid` therefore require an acyclic chain, given as a ghost argument.
- `ExceptionUtilsTest.BlameForeignException` does not state the separator-frame assertion of the test (ExceptionUtilsTest.java:31), because ExceptionUtils.java never adds such a frame.
- `ExceptionUtilsTest.BlameForeignExceptionWithCause` builds its two-node chain directly and omits the separator-frame assertion of the test (ExceptionUtilsTest.java:65), because ExceptionUtils.java adds no separator. The factory method `ExceptionFactory.getExceptionWithCause` that the test calls is not part of this model.
- Text rendering with `printStackTrace` and the line matching in the tests. The model compares stacks and messages directly.
- The `Urllib` null-pointer test (ExceptionUtilsTest.java:123-142). Its exception comes from code that is not part of this model.
- The unchecked cast `(T)` in `cloneException`, and the Android annotations `@Nullable` and `@VisibleForTesting`.
