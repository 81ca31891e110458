/**
 * The scenarios of ExceptionUtilsTest, replayed against the model, plus the
 * idempotence of blame rewriting as a client of `BlameBankdroid`.
 */
module ExceptionUtilsTest {
  import opened ExceptionUtils

  const NotBankdroidFrame := StackFrame("not.bankdroid.SomeClass", "someMethod", Some("SomeClass.java"), 42)
  const BankdroidFrame := StackFrame(PREFIX + "SomeOtherClass", "someOtherMethod", Some("SomeOtherClass.java"), 43)

  /** Frame of testBlameBankdroid, where it calls ExceptionFactory.getException. */
  const TestFrame := StackFrame(PREFIX + "utils.ExceptionUtilsTest", "testBlameBankdroid", Some("ExceptionUtilsTest.java"), 16)
  /** Frame of testBlameBankdroidAlreadyToBlame, where it creates its exception. */
  const AlreadyToBlameFrame := StackFrame(PREFIX + "utils.ExceptionUtilsTest", "testBlameBankdroidAlreadyToBlame", Some("ExceptionUtilsTest.java"), 74)
  /** Frame of testBlameBankdroidWithCause, where it calls ExceptionFactory.getExceptionWithCause. */
  const WithCauseTestFrame := StackFrame(PREFIX + "utils.ExceptionUtilsTest", "testBlameBankdroidWithCause", Some("ExceptionUtilsTest.java"), 39)
  /** Frame of testCloneExceptionWonky, where it calls ExceptionFactory.getWonkyException. */
  const WonkyTestFrame := StackFrame(PREFIX + "utils.ExceptionUtilsTest", "testCloneExceptionWonky", Some("ExceptionUtilsTest.java"), 110)
  /** Frame of ExceptionFactory.getException, which raises outside Bankdroid's package. */
  const FactoryFrame := StackFrame("not.bankdroid.at.all.ExceptionFactory", "getException", Some("ExceptionFactory.java"), 20)
  /** Frame of ExceptionFactory.getWonkyException. */
  const WonkyFactoryFrame := StackFrame("not.bankdroid.at.all.ExceptionFactory", "getWonkyException", Some("ExceptionFactory.java"), 16)
  /**
   * Frame of ExceptionFactory.getExceptionWithCause; that method is not part
   * of this model, so its line is unknown (a negative line number).
   */
  const WithCauseFactoryFrame := StackFrame("not.bankdroid.at.all.ExceptionFactory", "getExceptionWithCause", Some("ExceptionFactory.java"), -1)
  /** A frame of the test runner, below the test method. */
  const RunnerFrame := StackFrame("org.junit.runners.model.FrameworkMethod$1", "runReflectiveCall", Some("FrameworkMethod.java"), 50)

  /** java.lang.Exception and its superclasses. */
  const ExceptionAncestry := [
    Kind("java.lang.Exception", true),
    Kind("java.lang.Throwable", true),
    Kind("java.lang.Object", false)
  ]

  /** ExceptionFactory.WonkyException, whose only constructor takes an int, and its superclasses. */
  const WonkyAncestry := [
    Kind("not.bankdroid.at.all.ExceptionFactory$WonkyException", false),
    Kind("java.net.ConnectException", true),
    Kind("java.net.SocketException", true),
    Kind("java.io.IOException", true)
  ] + ExceptionAncestry

  /** A frame whose class name does not start with PREFIX's first letter is foreign. */
  lemma ForeignClassFrame(f: StackFrame)
    requires |f.className| > 0 && f.className[0] != PREFIX[0]
    ensures !IsBankdroidFrame(f)
  {
  }

  /**
   * testBankdroidifyStacktrace: the leading foreign frame is dropped, and
   * trimming the result again changes nothing.
   */
  lemma BankdroidifyStacktraceDropsForeignFrame()
    ensures Bankdroidified([NotBankdroidFrame, BankdroidFrame]) == [BankdroidFrame]
    ensures Bankdroidified([BankdroidFrame]) == [BankdroidFrame]
  {
    ForeignClassFrame(NotBankdroidFrame);
    BankdroidPackageFrame(BankdroidFrame, "SomeOtherClass");
    var rawStack := [NotBankdroidFrame, BankdroidFrame];
    assert IsBankdroidFrame(rawStack[1]);
    BankdroidHeadKeepsStack([BankdroidFrame]);
  }

  /**
   * The stack of an exception raised by foreign code called from a Bankdroid
   * test trims to the test's frame and the runner's below it.
   */
  lemma ForeignStackTrimsToTestFrames(factory: StackFrame, test: StackFrame)
    requires !IsBankdroidFrame(factory) && IsBankdroidFrame(test)
    ensures Bankdroidified([factory, test, RunnerFrame]) == [test, RunnerFrame]
    ensures |Bankdroidified([factory, test, RunnerFrame])| < 3
  {
    var rawStack := [factory, test, RunnerFrame];
    assert FirstBankdroidIndex(rawStack) == Some(1);
  }

  /**
   * testCloneExceptionWonky: WonkyException has no (String) constructor, so
   * the clone is a ConnectException with the same message and stack trace.
   */
  method CloneWonkyException() returns (raw: Throwable, cloned: Throwable?)
    ensures raw.ancestry == WonkyAncestry
    ensures cloned != null && fresh(cloned)
    ensures cloned.ancestry == raw.ancestry[1..] && cloned.ancestry[0].name == "java.net.ConnectException"
    ensures cloned.message == raw.message && cloned.stackTrace == raw.stackTrace && cloned.cause == null
  {
    raw := new Throwable.Create(WonkyAncestry, Some("Wonky: 5"));
    raw.SetStackTrace([WonkyFactoryFrame, WonkyTestFrame, RunnerFrame]);
    assert FirstConstructibleIndex(WonkyAncestry) == Some(1);
    cloned := CloneException(raw);
  }

  /**
   * testBlameBankdroidAlreadyToBlame: an exception created inside Bankdroid
   * code already starts at a Bankdroid frame, so blaming changes nothing.
   */
  method BlameExceptionRaisedInBankdroid() returns (e: Throwable, outcome: Outcome)
    ensures outcome == AlreadyBlamed
    ensures e.message == None && e.stackTrace == [AlreadyToBlameFrame, RunnerFrame] && e.cause == null
  {
    e := new Throwable.Create(ExceptionAncestry, None);
    e.SetStackTrace([AlreadyToBlameFrame, RunnerFrame]);
    BankdroidPackageFrame(AlreadyToBlameFrame, "utils.ExceptionUtilsTest");
    BankdroidHeadKeepsStack(e.stackTrace);
    outcome := BlameBankdroid(e, [e]);
  }

  /**
   * testBlameBankdroid: an exception raised by foreign code gains, as its
   * cause, a clone whose stack starts at the Bankdroid test frame.
   */
  method BlameForeignException() returns (e: Throwable, outcome: Outcome)
    ensures outcome == Blamed
    ensures e.stackTrace == [FactoryFrame, TestFrame, RunnerFrame]
    ensures e.cause != null && e.cause.message == Some("message")
    ensures e.cause.stackTrace == [TestFrame, RunnerFrame] && e.cause.cause == null
  {
    e := new Throwable.Create(ExceptionAncestry, Some("message"));
    e.SetStackTrace([FactoryFrame, TestFrame, RunnerFrame]);
    ForeignClassFrame(FactoryFrame);
    BankdroidPackageFrame(TestFrame, "utils.ExceptionUtilsTest");
    ForeignStackTrimsToTestFrames(FactoryFrame, TestFrame);
    assert IsCauseChain(e, [e]);
    outcome := BlameBankdroid(e, [e]);
  }

  /**
   * testBlameBankdroidWithCause: with a two-node chain the clone of the root
   * is attached below the foreign cause, whose own stack stays as it was.
   */
  method BlameForeignExceptionWithCause() returns (e: Throwable, c: Throwable, outcome: Outcome)
    ensures outcome == Blamed
    ensures e.cause == c && c.stackTrace == [WithCauseFactoryFrame, WithCauseTestFrame, RunnerFrame]
    ensures c.cause != null && c.cause.message == e.message && c.cause.ancestry == ExceptionAncestry
    ensures c.cause.stackTrace == [WithCauseTestFrame, RunnerFrame] && c.cause.cause == null
  {
    c := new Throwable.Create(ExceptionAncestry, Some("cause"));
    c.SetStackTrace([WithCauseFactoryFrame, WithCauseTestFrame, RunnerFrame]);
    e := new Throwable.Create(ExceptionAncestry, Some("wrapper"));
    e.SetStackTrace([WithCauseTestFrame, RunnerFrame]);
    e.InitCause(c);
    ForeignClassFrame(WithCauseFactoryFrame);
    BankdroidPackageFrame(WithCauseTestFrame, "utils.ExceptionUtilsTest");
    ForeignStackTrimsToTestFrames(WithCauseFactoryFrame, WithCauseTestFrame);
    outcome := BlameBankdroid(e, [e, c]);
  }

  /**
   * Blaming twice is the same as blaming once: after a successful call the
   * new ultimate cause's stack already starts at a Bankdroid frame, and after
   * a call that changed nothing the second call decides the same way.
   */
  method BlameBankdroidTwice(t: Throwable, ghost chain: seq<Throwable>) returns (first: Outcome, second: Outcome)
    requires IsCauseChain(t, chain)
    modifies (chain[|chain| - 1] as Throwable)`cause
    ensures first == Blamed ==> second == AlreadyBlamed
    ensures first != Blamed ==> second == first && chain[|chain| - 1].cause == null
    ensures first == Blamed ==>
      var fakeCause := chain[|chain| - 1].cause;
      fakeCause != null && fresh(fakeCause) && fakeCause.cause == null &&
      IsCauseChain(t, chain + [fakeCause])
  {
    first := BlameBankdroid(t, chain);
    if first == Blamed {
      ghost var u := chain[|chain| - 1];
      ghost var grown := chain + [u.cause];
      BankdroidifiedIdempotent(u.stackTrace);
      second := BlameBankdroid(t, grown);
    } else {
      second := BlameBankdroid(t, chain);
    }
  }
}
