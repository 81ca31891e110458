/**
 * Bankdroid's exception "blame rewriting": make a thrown throwable look, in a
 * crash report, as if Bankdroid's own code was its ultimate cause.
 *
 * A throwable is a heap object with a message, a stack trace and a cause link.
 * `BlameBankdroid` walks the cause links to the ultimate cause, trims that
 * node's stack trace down to the frames starting at the first Bankdroid frame,
 * and, when trimming removed something, hangs a clone of the root (carrying the
 * trimmed stack) below the ultimate cause.
 */
module ExceptionUtils {

  datatype Option<T> = None | Some(value: T)

  /** Package prefix of Bankdroid's own classes. */
  const PREFIX: string := "com.liato.bankdroid."

  /** One element of a captured stack trace (java.lang.StackTraceElement). */
  datatype StackFrame = StackFrame(className: string, methodName: string, fileName: Option<string>, lineNumber: int)

  /**
   * One class of a throwable's class hierarchy. `constructibleFromMessage` says
   * whether reflectively invoking its public `(String)` constructor yields an
   * instance (false when there is no such constructor, it is not accessible, the
   * class is abstract, or the constructor itself throws).
   */
  datatype Kind = Kind(name: string, constructibleFromMessage: bool)

  /** What a call of `BlameBankdroid` did; `CloneFailed` is the path that logs a warning. */
  datatype Outcome = Blamed | AlreadyBlamed | CloneFailed

  /** A frame that belongs to Bankdroid: its class name starts with PREFIX. */
  predicate IsBankdroidFrame(f: StackFrame)
  {
    PREFIX <= f.className
  }

  /**
   * String.startsWith spelled out: the class name is at least as long as
   * PREFIX and agrees with it character by character.
   */
  lemma IsBankdroidFrameIff(f: StackFrame)
    ensures IsBankdroidFrame(f) <==>
              |PREFIX| <= |f.className| && forall k :: 0 <= k < |PREFIX| ==> f.className[k] == PREFIX[k]
  {
    if |PREFIX| <= |f.className| && forall k :: 0 <= k < |PREFIX| ==> f.className[k] == PREFIX[k] {
      assert f.className[..|PREFIX|] == PREFIX;
    }
  }

  /**
   * Every class in the package com.liato.bankdroid or one of its subpackages
   * is Bankdroid's.
   */
  lemma BankdroidPackageFrame(f: StackFrame, rest: string)
    requires f.className == PREFIX + rest
    ensures IsBankdroidFrame(f)
  {
    assert f.className[..|PREFIX|] == PREFIX;
  }

  /** A java.lang.Throwable, with the fields that blame rewriting reads and writes. */
  class Throwable {
    /** The runtime class followed by each superclass in turn, most derived first. */
    const ancestry: seq<Kind>
    var message: Option<string>
    var stackTrace: seq<StackFrame>
    var cause: Throwable?

    /** `new C(message)` for the class C at the head of `ancestry`. */
    constructor Create(ancestry: seq<Kind>, message: Option<string>)
      ensures this.ancestry == ancestry && this.message == message
      ensures stackTrace == [] && cause == null
    {
      this.ancestry := ancestry;
      this.message := message;
      stackTrace := [];
      cause := null;
    }

    /** Throwable.setStackTrace: replaces this throwable's stack trace and nothing else. */
    method SetStackTrace(frames: seq<StackFrame>)
      modifies this`stackTrace
      ensures stackTrace == frames
    {
      stackTrace := frames;
    }

    /** Throwable.initCause, on a throwable whose cause is not yet set. */
    method InitCause(c: Throwable)
      requires cause == null && c != this
      modifies this`cause
      ensures cause == c
    {
      cause := c;
    }
  }

  /**
   * Each node of `nodes` has the next node as its cause. Only the causes of
   * the nodes before the last one are read.
   */
  ghost predicate Linked(nodes: seq<Throwable>)
    reads set i | 0 <= i < |nodes| - 1 :: nodes[i]
  {
    forall i :: 0 <= i < |nodes| - 1 ==> nodes[i].cause == nodes[i + 1]
  }

  /**
   * `chain` is the list of throwables met by following cause links from `t`:
   * it starts at `t`, each node's cause is the next node, and the last node has
   * no cause. Such a list exists exactly when the cause links from `t` are acyclic.
   */
  ghost predicate IsCauseChain(t: Throwable, chain: seq<Throwable>)
    reads chain
  {
    |chain| > 0 && chain[0] == t && Linked(chain) && chain[|chain| - 1].cause == null
  }

  /**
   * The ultimate cause, the one node of a cause chain without a cause, occurs
   * nowhere before the end of the chain.
   */
  lemma {:induction false} UltimateCauseOnlyAtEnd(t: Throwable, chain: seq<Throwable>)
    requires IsCauseChain(t, chain)
    ensures forall i :: 0 <= i < |chain| - 1 ==> chain[i] != chain[|chain| - 1]
  {
    forall i | 0 <= i < |chain| - 1 ensures chain[i] != chain[|chain| - 1] {
      assert chain[i].cause == chain[i + 1];
    }
  }

  /** Once the ultimate cause has a cause `f` without a cause, the chain extends by `f`. */
  lemma {:induction false} CauseChainGrows(t: Throwable, chain: seq<Throwable>, f: Throwable)
    requires |chain| > 0 && chain[0] == t && Linked(chain)
    requires chain[|chain| - 1].cause == f && f.cause == null
    ensures IsCauseChain(t, chain + [f])
  {
    var grown := chain + [f];
    forall i | 0 <= i < |grown| - 1 ensures grown[i].cause == grown[i + 1] {
      if i < |chain| - 1 {
        assert grown[i] == chain[i] && grown[i + 1] == chain[i + 1];
      }
    }
  }

  /**
   * The index of the first Bankdroid frame of `rawStack`, if there is one.
   */
  function FirstBankdroidIndex(rawStack: seq<StackFrame>): (r: Option<nat>)
    ensures r.Some? ==> r.value < |rawStack| && IsBankdroidFrame(rawStack[r.value])
    ensures r.Some? ==> forall j :: 0 <= j < r.value ==> !IsBankdroidFrame(rawStack[j])
    ensures r.None? <==> forall j :: 0 <= j < |rawStack| ==> !IsBankdroidFrame(rawStack[j])
  {
    if rawStack == [] then None
    else if IsBankdroidFrame(rawStack[0]) then Some(0)
    else match FirstBankdroidIndex(rawStack[1..])
      case None => None
      case Some(i) => Some(i + 1)
  }

  /**
   * The stack with its leading non-Bankdroid frames removed: a suffix of the
   * input that starts at a Bankdroid frame, or the input itself when it holds
   * no Bankdroid frame at all.
   */
  function Bankdroidified(rawStack: seq<StackFrame>): (r: seq<StackFrame>)
    ensures |r| <= |rawStack| && r == rawStack[|rawStack| - |r|..]
    ensures (exists j :: 0 <= j < |rawStack| && IsBankdroidFrame(rawStack[j])) ==>
              |r| > 0 && IsBankdroidFrame(r[0]) &&
              forall j :: 0 <= j < |rawStack| - |r| ==> !IsBankdroidFrame(rawStack[j])
    ensures (forall j :: 0 <= j < |rawStack| ==> !IsBankdroidFrame(rawStack[j])) ==> r == rawStack
  {
    match FirstBankdroidIndex(rawStack)
    case None => rawStack
    case Some(i) => rawStack[i..]
  }

  /** Trimming a stack that already starts at a Bankdroid frame keeps all of it. */
  lemma {:induction false} BankdroidHeadKeepsStack(rawStack: seq<StackFrame>)
    requires |rawStack| > 0 && IsBankdroidFrame(rawStack[0])
    ensures Bankdroidified(rawStack) == rawStack
  {
    assert FirstBankdroidIndex(rawStack) == Some(0);
  }

  /** Trimming is idempotent: a trimmed stack is left as it is by a second trim. */
  lemma {:induction false} BankdroidifiedIdempotent(rawStack: seq<StackFrame>)
    ensures Bankdroidified(Bankdroidified(rawStack)) == Bankdroidified(rawStack)
  {
    match FirstBankdroidIndex(rawStack)
    case None =>
    case Some(i) =>
      BankdroidHeadKeepsStack(rawStack[i..]);
  }

  /**
   * Trimming removes a frame exactly when the stack does not start at a
   * Bankdroid frame but holds one further down.
   */
  lemma {:induction false} BankdroidifiedShortensIff(rawStack: seq<StackFrame>)
    ensures |Bankdroidified(rawStack)| < |rawStack| <==>
              |rawStack| > 0 && !IsBankdroidFrame(rawStack[0]) &&
              exists j :: 0 < j < |rawStack| && IsBankdroidFrame(rawStack[j])
  {
    match FirstBankdroidIndex(rawStack)
    case None =>
    case Some(i) =>
      if i == 0 {
        BankdroidHeadKeepsStack(rawStack);
      }
  }

  /**
   * bankdroidifyStacktrace: scan the frames from the top for the first one of
   * Bankdroid's and return the frames from there on; with none, the stack as given.
   */
  method BankdroidifyStacktrace(rawStack: seq<StackFrame>) returns (r: seq<StackFrame>)
    ensures r == Bankdroidified(rawStack)
  {
    for i := 0 to |rawStack|
      invariant forall j :: 0 <= j < i ==> !IsBankdroidFrame(rawStack[j])
    {
      if IsBankdroidFrame(rawStack[i]) {
        return rawStack[i..];
      }
    }
    return rawStack;
  }

  /**
   * getUltimateCause: follow cause links from `t` to the node that has none,
   * which is the last node of `t`'s cause chain.
   */
  method GetUltimateCause(t: Throwable, ghost chain: seq<Throwable>) returns (ultimateCause: Throwable)
    requires IsCauseChain(t, chain)
    ensures ultimateCause == chain[|chain| - 1]
    ensures ultimateCause.cause == null
  {
    ultimateCause := t;
    ghost var i := 0;
    while ultimateCause.cause != null
      invariant 0 <= i < |chain| && ultimateCause == chain[i]
      invariant ultimateCause.cause == if i < |chain| - 1 then chain[i + 1] else null
      decreases |chain| - i
    {
      ultimateCause := ultimateCause.cause;
      i := i + 1;
    }
  }

  /**
   * The position in `ancestry` of the first class that can be instantiated
   * from a message, if any.
   */
  function FirstConstructibleIndex(ancestry: seq<Kind>): (r: Option<nat>)
    ensures r.Some? ==> r.value < |ancestry| && ancestry[r.value].constructibleFromMessage
    ensures r.Some? ==> forall j :: 0 <= j < r.value ==> !ancestry[j].constructibleFromMessage
    ensures r.None? <==> forall j :: 0 <= j < |ancestry| ==> !ancestry[j].constructibleFromMessage
  {
    if ancestry == [] then None
    else if ancestry[0].constructibleFromMessage then Some(0)
    else match FirstConstructibleIndex(ancestry[1..])
      case None => None
      case Some(i) => Some(i + 1)
  }

  /**
   * cloneException: instantiate the runtime class of `wrapMe`, or failing that
   * each superclass in turn, from `wrapMe`'s message, and give the new object
   * `wrapMe`'s stack trace. The clone has no cause. Null when no class in the
   * hierarchy can be instantiated that way.
   */
  method CloneException(wrapMe: Throwable) returns (r: Throwable?)
    ensures match FirstConstructibleIndex(wrapMe.ancestry)
      case None => r == null
      case Some(k) =>
        r != null && fresh(r) &&
        r.ancestry == wrapMe.ancestry[k..] &&
        r.message == wrapMe.message &&
        r.stackTrace == wrapMe.stackTrace &&
        r.cause == null
  {
    var newClass := wrapMe.ancestry;
    while newClass != []
      invariant |newClass| <= |wrapMe.ancestry|
      invariant newClass == wrapMe.ancestry[|wrapMe.ancestry| - |newClass|..]
      invariant forall j :: 0 <= j < |wrapMe.ancestry| - |newClass| ==> !wrapMe.ancestry[j].constructibleFromMessage
    {
      if newClass[0].constructibleFromMessage {
        var returnMe := new Throwable.Create(newClass, wrapMe.message);
        returnMe.SetStackTrace(wrapMe.stackTrace);
        return returnMe;
      }
      newClass := newClass[1..];
    }
    return null;
  }

  /**
   * blameBankdroid: if trimming the ultimate cause's stack removes frames and
   * `t` can be cloned, attach a clone of `t` carrying the trimmed stack as the
   * ultimate cause's cause. Otherwise nothing changes. Only the ultimate
   * cause's cause field is ever written.
   */
  method BlameBankdroid(t: Throwable, ghost chain: seq<Throwable>) returns (outcome: Outcome)
    requires IsCauseChain(t, chain)
    modifies (chain[|chain| - 1] as Throwable)`cause
    ensures var u := chain[|chain| - 1];
      outcome == (if |Bankdroidified(u.stackTrace)| == |u.stackTrace| then AlreadyBlamed
                  else if FirstConstructibleIndex(t.ancestry).None? then CloneFailed
                  else Blamed)
    ensures outcome != Blamed ==> chain[|chain| - 1].cause == null
    ensures outcome == Blamed ==>
      var u := chain[|chain| - 1];
      var fakeCause := u.cause;
      fakeCause != null && fresh(fakeCause) &&
      fakeCause.ancestry == t.ancestry[FirstConstructibleIndex(t.ancestry).value..] &&
      fakeCause.message == t.message &&
      fakeCause.stackTrace == Bankdroidified(u.stackTrace) &&
      fakeCause.cause == null &&
      |fakeCause.stackTrace| > 0 && IsBankdroidFrame(fakeCause.stackTrace[0]) &&
      IsCauseChain(t, chain + [fakeCause])
  {
    var ultimateCause := GetUltimateCause(t, chain);
    var bankdroidifiedStacktrace := BankdroidifyStacktrace(ultimateCause.stackTrace);
    if |bankdroidifiedStacktrace| == |ultimateCause.stackTrace| {
      // Unable to trim: already done
      return AlreadyBlamed;
    }

    var fakeCause := CloneException(t);
    if fakeCause == null {
      return CloneFailed;
    }
    fakeCause.SetStackTrace(bankdroidifiedStacktrace);

    BankdroidifiedShortensIff(ultimateCause.stackTrace);
    // The links above the ultimate cause are not touched by initCause.
    UltimateCauseOnlyAtEnd(t, chain);
    ultimateCause.InitCause(fakeCause);
    CauseChainGrows(t, chain, fakeCause);
    return Blamed;
  }
}
