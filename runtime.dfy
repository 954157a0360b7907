/**
 * The runtime services the JIT compiler drives: the GC-independence toggle of
 * the shared state, the process-wide code-byte counter, the object memory's
 * code-resource registry, and the backend (verifier and execution engine),
 * whose answers are oracles. A ghost event trace records every step so that
 * the order of steps can be stated.
 */
module Runtime {
  import opened Wrappers
  import opened IR

  /** A machine-code entry address; the execution engine never hands back 0. */
  type Address = a: nat | a > 0 witness 1

  /** The void* results of the compiler: NULL, or an address. */
  const NULL: nat := 0

  /** What the execution engine reports for lowered code. */
  datatype CodeInfo = CodeInfo(address: Address, size: nat)

  datatype BuilderKind = MethodBuilder | BlockBuilder

  datatype Event =
    | SetRoot
    | Setup(kind: BuilderKind)
    | GenerateBody(kind: BuilderKind)
    | GenerateHardReturn(kind: BuilderKind)
    | GcIndependent
    | GcDependent
    | CleanupBlocks
    | Verify(rejected: bool)
    | RunPasses
    | RunJit(code: CodeInfo)
    | AddCodeBytes(bytes: nat)
    | DropAllReferences
    | SetFunction(code: CodeInfo)
    | AddCodeResource

  predicate IsToggle(e: Event) {
    e.GcIndependent? || e.GcDependent?
  }

  /** Events that leave the counter, the registry and the GC state alone. */
  predicate Neutral(e: Event) {
    !IsToggle(e) && !e.AddCodeBytes? && !e.AddCodeResource?
  }

  /** The GC toggles of a trace, in order. */
  function Toggles(t: seq<Event>): seq<Event> {
    if t == [] then []
    else (if IsToggle(t[0]) then [t[0]] else []) + Toggles(t[1..])
  }

  /** The code bytes a trace accounts. */
  function BytesAdded(t: seq<Event>): nat {
    if t == [] then 0
    else (if t[0].AddCodeBytes? then t[0].bytes else 0) + BytesAdded(t[1..])
  }

  /** How many code resources a trace registers. */
  function Registrations(t: seq<Event>): nat {
    if t == [] then 0
    else (if t[0] == AddCodeResource then 1 else 0) + Registrations(t[1..])
  }

  /** After a trace the thread is GC-independent iff its last toggle entered that state. */
  predicate IndependentAfter(t: seq<Event>) {
    var g := Toggles(t);
    |g| > 0 && g[|g| - 1] == GcIndependent
  }

  lemma {:induction false} TogglesConcat(a: seq<Event>, b: seq<Event>)
    ensures Toggles(a + b) == Toggles(a) + Toggles(b)
  {
    if a == [] {
      assert a + b == b;
    } else {
      assert (a + b)[1..] == a[1..] + b;
      TogglesConcat(a[1..], b);
    }
  }

  lemma {:induction false} BytesAddedConcat(a: seq<Event>, b: seq<Event>)
    ensures BytesAdded(a + b) == BytesAdded(a) + BytesAdded(b)
  {
    if a == [] {
      assert a + b == b;
    } else {
      assert (a + b)[1..] == a[1..] + b;
      BytesAddedConcat(a[1..], b);
    }
  }

  lemma {:induction false} RegistrationsConcat(a: seq<Event>, b: seq<Event>)
    ensures Registrations(a + b) == Registrations(a) + Registrations(b)
  {
    if a == [] {
      assert a + b == b;
    } else {
      assert (a + b)[1..] == a[1..] + b;
      RegistrationsConcat(a[1..], b);
    }
  }

  /** A trace without toggles leaves the GC state as it was. */
  lemma IndependentAfterConcat(a: seq<Event>, b: seq<Event>)
    ensures IndependentAfter(a + b) == if Toggles(b) == [] then IndependentAfter(a) else IndependentAfter(b)
  {
    TogglesConcat(a, b);
    if Toggles(b) == [] {
      assert Toggles(a + b) == Toggles(a);
    }
  }

  lemma AppendOne(t: seq<Event>, e: Event)
    ensures BytesAdded(t + [e]) == BytesAdded(t) + (if e.AddCodeBytes? then e.bytes else 0)
    ensures Registrations(t + [e]) == Registrations(t) + (if e == AddCodeResource then 1 else 0)
    ensures IndependentAfter(t + [e]) == if IsToggle(e) then e == GcIndependent else IndependentAfter(t)
  {
    BytesAddedConcat(t, [e]);
    RegistrationsConcat(t, [e]);
    IndependentAfterConcat(t, [e]);
    assert Toggles([e]) == (if IsToggle(e) then [e] else []) + Toggles([]);
  }

  /** The backend's oracles: verifier defects beyond missing terminators, and the execution engine. */
  datatype Backend = Backend(otherDefect: seq<Block> -> bool, lower: seq<Block> -> CodeInfo)

  /**
   * verifyFunction reports a broken function: a block that does not end in a
   * terminator, empty ones included, or any other defect the backend finds.
   */
  predicate VerifierRejects(backend: Backend, bs: seq<Block>) {
    !WellTerminated(bs) || backend.otherDefect(bs)
  }

  /** The holder of the heap references embedded in one piece of generated code. */
  class RuntimeDataHolder {
    var func: IRFunction?
    var code: Option<CodeInfo>

    constructor ()
      ensures func == null && code == None
    {
      func := null;
      code := None;
    }

    method SetFunction(f: IRFunction, info: CodeInfo)
      modifies this
      ensures func == f && code == Some(info)
    {
      func := f;
      code := Some(info);
    }
  }

  /** How many times h stands in the code-resource registry. */
  function Count(s: seq<RuntimeDataHolder>, h: RuntimeDataHolder): nat {
    if s == [] then 0
    else (if s[0] == h then 1 else 0) + Count(s[1..], h)
  }

  lemma {:induction false} CountAppend(s: seq<RuntimeDataHolder>, x: RuntimeDataHolder, h: RuntimeDataHolder)
    ensures Count(s + [x], h) == Count(s, h) + (if x == h then 1 else 0)
  {
    if s == [] {
      assert [] + [x] == [x];
    } else {
      assert (s + [x])[1..] == s[1..] + [x];
      CountAppend(s[1..], x, h);
    }
  }

  lemma {:induction false} CountAbsent(s: seq<RuntimeDataHolder>, h: RuntimeDataHolder)
    requires h !in s
    ensures Count(s, h) == 0
  {
    if s != [] {
      assert h !in s[1..];
      CountAbsent(s[1..], h);
    }
  }

  /** The parts of LLVMState, SharedState and ObjectMemory the compiler uses. */
  class LLVMState {
    const debug: bool
    const backend: Backend
    var independent: bool
    var codeBytes: nat
    var codeResources: seq<RuntimeDataHolder>
    ghost var trace: seq<Event>

    /** The counters and the GC state are exactly what the trace accounts. */
    ghost predicate Valid()
      reads this
    {
      && codeBytes == BytesAdded(trace)
      && |codeResources| == Registrations(trace)
      && independent == IndependentAfter(trace)
    }

    constructor (debug: bool, backend: Backend)
      ensures Valid()
      ensures this.debug == debug && this.backend == backend
      ensures trace == [] && codeBytes == 0 && codeResources == [] && !independent
    {
      this.debug := debug;
      this.backend := backend;
      independent := false;
      codeBytes := 0;
      codeResources := [];
      trace := [];
    }

    method GcIndependent()
      requires Valid()
      modifies this
      ensures Valid() && independent
      ensures trace == old(trace) + [Event.GcIndependent]
      ensures codeBytes == old(codeBytes) && codeResources == old(codeResources)
    {
      AppendOne(trace, Event.GcIndependent);
      independent := true;
      trace := trace + [Event.GcIndependent];
    }

    method GcDependent()
      requires Valid()
      modifies this
      ensures Valid() && !independent
      ensures trace == old(trace) + [Event.GcDependent]
      ensures codeBytes == old(codeBytes) && codeResources == old(codeResources)
    {
      AppendOne(trace, Event.GcDependent);
      independent := false;
      trace := trace + [Event.GcDependent];
    }

    /** add_code_bytes: the counter grows by exactly n. */
    method AddCodeBytes(n: nat)
      requires Valid()
      modifies this
      ensures Valid() && codeBytes == old(codeBytes) + n
      ensures trace == old(trace) + [Event.AddCodeBytes(n)]
      ensures independent == old(independent) && codeResources == old(codeResources)
    {
      AppendOne(trace, Event.AddCodeBytes(n));
      codeBytes := codeBytes + n;
      trace := trace + [Event.AddCodeBytes(n)];
    }

    /** add_code_resource: the holder is appended to the registry. */
    method AddCodeResource(h: RuntimeDataHolder)
      requires Valid()
      modifies this
      ensures Valid() && codeResources == old(codeResources) + [h]
      ensures trace == old(trace) + [Event.AddCodeResource]
      ensures independent == old(independent) && codeBytes == old(codeBytes)
    {
      AppendOne(trace, Event.AddCodeResource);
      codeResources := codeResources + [h];
      trace := trace + [Event.AddCodeResource];
    }

    /** Records a step that touches no counter, registry or GC state. */
    ghost method Record(e: Event)
      requires Valid() && Neutral(e)
      modifies this
      ensures Valid() && trace == old(trace) + [e]
      ensures independent == old(independent) && codeBytes == old(codeBytes)
      ensures codeResources == old(codeResources)
    {
      AppendOne(trace, e);
      trace := trace + [e];
    }

    /** verifyFunction, answering true when the function is broken. */
    method VerifyFunction(bs: seq<Block>) returns (rejected: bool)
      requires Valid()
      modifies this
      ensures Valid() && rejected == VerifierRejects(backend, bs)
      ensures trace == old(trace) + [Verify(rejected)]
      ensures independent == old(independent) && codeBytes == old(codeBytes)
      ensures codeResources == old(codeResources)
    {
      rejected := VerifierRejects(backend, bs);
      Record(Verify(rejected));
    }

    /** The optimization pass pipeline; it is opaque to this model. */
    method RunPasses()
      requires Valid()
      modifies this
      ensures Valid() && trace == old(trace) + [Event.RunPasses]
      ensures independent == old(independent) && codeBytes == old(codeBytes)
      ensures codeResources == old(codeResources)
    {
      Record(Event.RunPasses);
    }

    /** runJITOnFunction: lowers the function, whose body must still be present, and reports address and size. */
    method RunJit(f: IRFunction) returns (code: CodeInfo)
      requires Valid() && !f.released
      modifies this
      ensures Valid() && code == backend.lower(f.blocks)
      ensures trace == old(trace) + [Event.RunJit(code)]
      ensures independent == old(independent) && codeBytes == old(codeBytes)
      ensures codeResources == old(codeResources)
    {
      code := backend.lower(f.blocks);
      Record(Event.RunJit(code));
    }
  }
}
