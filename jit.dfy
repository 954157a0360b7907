/**
 * jit::Compiler: turns one background compile request into machine code.
 * compile dispatches to the method or the block path, both of which run a
 * builder through compile_builder; generate_function then cleans, verifies,
 * optimizes and lowers the IR function, accounts the code bytes and installs
 * the runtime-data holder, bracketed by GC-independence toggles.
 *
 * The builder's translation is not modelled: the IR function it fills in and
 * whether generate_body succeeded are parameters of the compile methods.
 */
module Jit {
  import opened Wrappers
  import opened IR
  import opened Runtime

  type ClassRef = nat

  /** The bytecode body of a method or block; parent is the enclosing scope of a block. */
  datatype VMMethod = VMMethod(id: nat, parent: Option<nat>)

  datatype CompiledMethod = CompiledMethod(id: nat, backendMethod: VMMethod)

  /** A queued request: its method, the block body when it is a block, and the receiver class. */
  datatype Request = Request(cm: CompiledMethod, vmmethod: VMMethod, isBlock: bool, receiverClass: Option<ClassRef>)

  /** JITMethodInfo: what one compile records about its unit. */
  datatype MethodInfo = MethodInfo(cm: CompiledMethod, vmm: VMMethod, isBlock: bool, selfClass: Option<ClassRef>)

  /** The builder compile chooses for a request. */
  function KindFor(req: Request): BuilderKind {
    if req.isBlock then BlockBuilder else MethodBuilder
  }

  /** The unit compile roots the context at. */
  function InfoFor(req: Request): MethodInfo {
    if req.isBlock then MethodInfo(req.cm, req.vmmethod, true, None)
    else MethodInfo(req.cm, req.cm.backendMethod, false, req.receiverClass)
  }

  /** jit::Context: the inlining root and the runtime-data holder of this compiler. */
  class Context {
    var root: Option<MethodInfo>
    const holder: RuntimeDataHolder

    constructor ()
      ensures root == None && fresh(holder)
      ensures holder.func == null && holder.code == None
    {
      root := None;
      holder := new RuntimeDataHolder();
    }

    method SetRoot(info: MethodInfo)
      modifies this
      ensures root == Some(info)
    {
      root := Some(info);
    }
  }

  /** The steps compile_builder takes: the body, then the hard return unless the body failed. */
  function BodyTrace(kind: BuilderKind, supported: bool): seq<Event> {
    [GenerateBody(kind)] + (if supported then [GenerateHardReturn(kind)] else [])
  }

  /** The steps of compile, compile_method and compile_block. */
  function BuildTrace(kind: BuilderKind, supported: bool): seq<Event> {
    [SetRoot, Setup(kind)] + BodyTrace(kind, supported)
  }

  /** generate_function fails: the scan found a missing terminator or the verifier rejected the cleaned blocks. */
  predicate Failed(backend: Backend, bs: seq<Block>) {
    HasMissingTerminator(bs) || VerifierRejects(backend, Kept(bs))
  }

  lemma GenerateTraceOnFailure(indy: bool, debug: bool, broken: bool, rejected: bool, code: CodeInfo)
    requires broken || rejected
    ensures GenerateTrace(indy, debug, broken, rejected, code)
            == Toggle(indy, GcIndependent) + Verdict(broken, rejected) + Toggle(indy, GcDependent)
  {
  }

  lemma GenerateTraceOnSuccess(indy: bool, debug: bool, code: CodeInfo)
    ensures GenerateTrace(indy, debug, false, false, code)
            == Toggle(indy, GcIndependent) + Verdict(false, false) + (LowerTrace(debug, code) + RegisterTrace(indy, code))
  {
  }

  /** The abort path, appended to the steps taken before it, is the whole generate_function trace. */
  lemma AbortCompletes(t0: seq<Event>, t1: seq<Event>, indy: bool, debug: bool, broken: bool, rejected: bool, code: CodeInfo)
    requires broken || rejected
    requires t1 == t0 + (Toggle(indy, GcIndependent) + Verdict(broken, rejected))
    ensures t1 + Toggle(indy, GcDependent) == t0 + GenerateTrace(indy, debug, broken, rejected, code)
  {
    GenerateTraceOnFailure(indy, debug, broken, rejected, code);
    Assoc(t0, Toggle(indy, GcIndependent) + Verdict(broken, rejected), Toggle(indy, GcDependent));
  }

  /** The success path, appended to the steps taken before it, is the whole generate_function trace. */
  lemma InstallCompletes(t0: seq<Event>, t1: seq<Event>, indy: bool, debug: bool, code: CodeInfo)
    requires t1 == t0 + (Toggle(indy, GcIndependent) + Verdict(false, false))
    ensures t1 + LowerTrace(debug, code) + RegisterTrace(indy, code) == t0 + GenerateTrace(indy, debug, false, false, code)
  {
    GenerateTraceOnSuccess(indy, debug, code);
    Assoc(t0, Toggle(indy, GcIndependent) + Verdict(false, false), LowerTrace(debug, code) + RegisterTrace(indy, code));
    Assoc(t1, LowerTrace(debug, code), RegisterTrace(indy, code));
  }

  lemma Assoc(a: seq<Event>, b: seq<Event>, c: seq<Event>)
    ensures a + b + c == a + (b + c)
  {
  }

  function Toggle(indy: bool, e: Event): seq<Event> {
    if indy then [e] else []
  }

  /**
   * The steps generate_function takes once it has a function and no code yet:
   * broken is the scan's verdict, rejected the verifier's (consulted only when
   * the scan found nothing), code what the execution engine reports.
   */
  function GenerateTrace(indy: bool, debug: bool, broken: bool, rejected: bool, code: CodeInfo): seq<Event> {
    Toggle(indy, GcIndependent)
    + Verdict(broken, rejected)
    + (if broken || rejected then Toggle(indy, GcDependent)
       else LowerTrace(debug, code) + RegisterTrace(indy, code))
  }

  /**
   * The block cleanup, then the verifier's verdict unless the scan found a
   * missing terminator (the short-circuit `or` of generate_function).
   */
  function Verdict(broken: bool, rejected: bool): seq<Event> {
    [Event.CleanupBlocks] + (if broken then [] else [Verify(rejected)])
  }

  /** Passes, lowering, accounting, and the release of the body unless debugging. */
  function LowerTrace(debug: bool, code: CodeInfo): seq<Event> {
    [RunPasses, RunJit(code), AddCodeBytes(code.size)] + (if debug then [] else [Event.DropAllReferences])
  }

  /** Back to GC-dependent, then the holder gets the code and is registered. */
  function RegisterTrace(indy: bool, code: CodeInfo): seq<Event> {
    Toggle(indy, GcDependent) + [SetFunction(code), Event.AddCodeResource]
  }

  class Compiler {
    var func: IRFunction?
    var mci: Option<CodeInfo>
    const ctx: Context

    /** A function waiting for code still has its body: it is released only after lowering. */
    ghost predicate Valid()
      reads this, func
    {
      && (func != null ==> func.Valid())
      && (mci.None? && func != null ==> !func.released)
    }

    /**
     * The holder carries exactly the installed code, and it is registered
     * once after code was installed and never before.
     */
    ghost predicate Registered(rt: LLVMState)
      reads this, ctx.holder, rt
    {
      && ctx.holder.code == mci
      && Count(rt.codeResources, ctx.holder) == (if mci.None? then 0 else 1)
    }

    constructor (rt: LLVMState)
      ensures Valid() && Registered(rt)
      ensures func == null && mci == None
      ensures fresh(ctx) && fresh(ctx.holder) && ctx.root == None
    {
      func := null;
      mci := None;
      ctx := new Context();
      new;
      CountAbsent(rt.codeResources, ctx.holder);
    }

    /** function_pointer: NULL until code is installed, then its entry address. */
    function FunctionPointer(): (p: nat)
      reads this
      ensures p == NULL <==> mci.None?
      ensures mci.Some? ==> p == mci.value.address
    {
      if mci.None? then NULL else mci.value.address
    }

    method GenerateFunction(rt: LLVMState, indy: bool) returns (p: nat)
      requires Valid() && rt.Valid() && Registered(rt)
      modifies this, rt, ctx.holder, func
      ensures Valid() && rt.Valid() && Registered(rt)
      ensures p == FunctionPointer()
      // Code already installed: the cached address, and nothing else happens.
      ensures old(mci).Some? ==>
        && p == old(mci).value.address && mci == old(mci) && func == old(func)
        && unchanged(rt) && unchanged(ctx.holder)
        && (func != null ==> unchanged(func))
      // No function (unsupported body or an earlier failure): NULL, and nothing else happens.
      ensures old(mci).None? && old(func) == null ==>
        p == NULL && mci == None && func == null && unchanged(rt) && unchanged(ctx.holder)
      // The pipeline runs.
      ensures old(mci).None? && old(func) != null ==>
        var kept := Kept(old(func.blocks));
        var broken := HasMissingTerminator(old(func.blocks));
        var rejected := VerifierRejects(rt.backend, kept);
        var code := rt.backend.lower(kept);
        && old(func).blocks == kept
        && rt.trace == old(rt.trace) + GenerateTrace(indy, rt.debug, broken, rejected, code)
        && rt.independent == (if indy then false else old(rt.independent))
        && (broken || rejected ==>
              && p == NULL && mci == None && func == null
              && old(func).released == old(func.released)
              && rt.codeBytes == old(rt.codeBytes) && rt.codeResources == old(rt.codeResources)
              && unchanged(ctx.holder))
        && (!broken && !rejected ==>
              && p == code.address && mci == Some(code) && func == old(func)
              && func.released == (old(func.released) || !rt.debug)
              && rt.codeBytes == old(rt.codeBytes) + code.size
              && rt.codeResources == old(rt.codeResources) + [ctx.holder]
              && ctx.holder.func == func && ctx.holder.code == Some(code))
    {
      if mci.None? {
        if func == null {
          return NULL;
        }
        p := RunPipeline(rt, indy);
        return;
      }
      p := mci.value.address;
    }

    /** generate_function from its first toggle on, for a function without code. */
    method RunPipeline(rt: LLVMState, indy: bool) returns (p: nat)
      requires Valid() && rt.Valid() && Registered(rt)
      requires mci.None? && func != null
      modifies this, rt, ctx.holder, func
      ensures Valid() && rt.Valid() && Registered(rt)
      ensures p == FunctionPointer()
      ensures old(func).blocks == Kept(old(func.blocks))
      ensures rt.trace == old(rt.trace) + GenerateTrace(indy, rt.debug, HasMissingTerminator(old(func.blocks)),
                VerifierRejects(rt.backend, Kept(old(func.blocks))), rt.backend.lower(Kept(old(func.blocks))))
      ensures rt.independent == (if indy then false else old(rt.independent))
      ensures Failed(rt.backend, old(func.blocks)) ==>
        && p == NULL && mci == None && func == null
        && old(func).released == old(func.released)
        && rt.codeBytes == old(rt.codeBytes) && rt.codeResources == old(rt.codeResources)
        && unchanged(ctx.holder)
      ensures !Failed(rt.backend, old(func.blocks)) ==>
        var code := rt.backend.lower(Kept(old(func.blocks)));
        && p == code.address && mci == Some(code) && func == old(func)
        && func.released == (old(func.released) || !rt.debug)
        && rt.codeBytes == old(rt.codeBytes) + code.size
        && rt.codeResources == old(rt.codeResources) + [ctx.holder]
        && ctx.holder.func == func && ctx.holder.code == Some(code)
    {
      var f := func;
      ghost var t0 := rt.trace;
      ghost var bs := f.blocks;
      ghost var hb := HasMissingTerminator(bs);
      ghost var vr := VerifierRejects(rt.backend, Kept(bs));
      ghost var code0 := rt.backend.lower(Kept(bs));
      var broken, rejected := Check(rt, indy, f);
      assert broken == hb && (!broken ==> rejected == vr);
      ghost var t1 := rt.trace;
      if broken || rejected {
        Abort(rt, indy);
        AbortCompletes(t0, t1, indy, rt.debug, hb, vr, code0);
        return NULL;
      }
      var code := Install(rt, indy, f);
      assert code == code0 && !hb && !vr;
      InstallCompletes(t0, t1, indy, rt.debug, code);
      p := code.address;
    }

    /** Enter the GC-independent state, clean the blocks, and verify unless the scan found a defect. */
    method Check(rt: LLVMState, indy: bool, f: IRFunction) returns (broken: bool, rejected: bool)
      requires rt.Valid() && f.Valid()
      modifies rt, f
      ensures rt.Valid() && f.Valid()
      ensures f.blocks == Kept(old(f.blocks)) && f.released == old(f.released)
      ensures broken == HasMissingTerminator(old(f.blocks))
      ensures rejected == (!broken && VerifierRejects(rt.backend, f.blocks))
      ensures rt.trace == old(rt.trace) + (Toggle(indy, GcIndependent) + Verdict(broken, rejected))
      ensures rt.independent == (indy || old(rt.independent))
      ensures rt.codeBytes == old(rt.codeBytes) && rt.codeResources == old(rt.codeResources)
    {
      if indy {
        rt.GcIndependent();
      }
      broken := CleanBlocks(rt, f);
      rejected := false;
      if !broken {
        rejected := rt.VerifyFunction(f.blocks);
      }
    }

    /** The scan and erase loops of generate_function, recorded as one step. */
    method CleanBlocks(rt: LLVMState, f: IRFunction) returns (broken: bool)
      requires rt.Valid() && f.Valid()
      modifies rt, f
      ensures rt.Valid() && f.Valid()
      ensures f.blocks == Kept(old(f.blocks)) && f.released == old(f.released)
      ensures broken == HasMissingTerminator(old(f.blocks))
      ensures rt.trace == old(rt.trace) + [Event.CleanupBlocks]
      ensures rt.independent == old(rt.independent)
      ensures rt.codeBytes == old(rt.codeBytes) && rt.codeResources == old(rt.codeResources)
    {
      broken := f.Cleanup();
      rt.Record(Event.CleanupBlocks);
    }

    /** The abort path: drop the function, leave the GC-independent state. */
    method Abort(rt: LLVMState, indy: bool)
      requires rt.Valid()
      modifies this, rt
      ensures rt.Valid() && func == null && mci == old(mci)
      ensures rt.trace == old(rt.trace) + Toggle(indy, GcDependent)
      ensures rt.independent == (if indy then false else old(rt.independent))
      ensures rt.codeBytes == old(rt.codeBytes) && rt.codeResources == old(rt.codeResources)
    {
      func := null;
      if indy {
        rt.GcDependent();
      }
    }

    /** The success path of generate_function: lower and account, then install. */
    method Install(rt: LLVMState, indy: bool, f: IRFunction) returns (code: CodeInfo)
      requires Valid() && rt.Valid() && Registered(rt)
      requires mci.None? && func == f
      modifies this, rt, ctx.holder, f
      ensures Valid() && rt.Valid() && Registered(rt)
      ensures code == rt.backend.lower(old(f.blocks))
      ensures mci == Some(code) && func == f && f.blocks == old(f.blocks)
      ensures f.released == (old(f.released) || !rt.debug)
      ensures rt.trace == old(rt.trace) + LowerTrace(rt.debug, code) + RegisterTrace(indy, code)
      ensures rt.independent == (if indy then false else old(rt.independent))
      ensures rt.codeBytes == old(rt.codeBytes) + code.size
      ensures rt.codeResources == old(rt.codeResources) + [ctx.holder]
      ensures ctx.holder.func == f && ctx.holder.code == Some(code)
    {
      code := Lower(rt, f);
      Register(rt, indy, f, code);
    }

    /** Optimize, lower, account the code bytes, release the body unless debugging. */
    method Lower(rt: LLVMState, f: IRFunction) returns (code: CodeInfo)
      requires Valid() && rt.Valid()
      requires mci.None? && func == f
      modifies this, rt, f
      ensures Valid() && rt.Valid()
      ensures code == rt.backend.lower(old(f.blocks))
      ensures mci == Some(code) && func == f && f.blocks == old(f.blocks)
      ensures f.released == (old(f.released) || !rt.debug)
      ensures rt.trace == old(rt.trace) + LowerTrace(rt.debug, code)
      ensures rt.independent == old(rt.independent)
      ensures rt.codeBytes == old(rt.codeBytes) + code.size
      ensures rt.codeResources == old(rt.codeResources)
    {
      ghost var t0 := rt.trace;
      rt.RunPasses();
      code := rt.RunJit(f);
      mci := Some(code);
      rt.AddCodeBytes(code.size);
      assert rt.trace == t0 + [RunPasses, RunJit(code), AddCodeBytes(code.size)];
      if !rt.debug {
        Release(rt, f);
      }
    }

    /** dropAllReferences, recorded as one step. */
    method Release(rt: LLVMState, f: IRFunction)
      requires rt.Valid()
      modifies rt, f
      ensures rt.Valid() && f.released && f.blocks == old(f.blocks)
      ensures rt.trace == old(rt.trace) + [Event.DropAllReferences]
      ensures rt.independent == old(rt.independent)
      ensures rt.codeBytes == old(rt.codeBytes) && rt.codeResources == old(rt.codeResources)
    {
      f.DropAllReferences();
      rt.Record(Event.DropAllReferences);
    }

    /** Leave the GC-independent state, hand the code to the holder, register the holder. */
    method Register(rt: LLVMState, indy: bool, f: IRFunction, code: CodeInfo)
      requires rt.Valid()
      requires mci == Some(code) && Count(rt.codeResources, ctx.holder) == 0
      modifies rt, ctx.holder
      ensures rt.Valid() && Registered(rt)
      ensures rt.trace == old(rt.trace) + RegisterTrace(indy, code)
      ensures rt.independent == (if indy then false else old(rt.independent))
      ensures rt.codeBytes == old(rt.codeBytes)
      ensures rt.codeResources == old(rt.codeResources) + [ctx.holder]
      ensures ctx.holder.func == f && ctx.holder.code == Some(code)
    {
      ghost var t0 := rt.trace;
      if indy {
        rt.GcDependent();
      }
      assert rt.trace == t0 + Toggle(indy, GcDependent);
      HandOver(rt, f, code);
      CountAppend(rt.codeResources, ctx.holder, ctx.holder);
      rt.AddCodeResource(ctx.holder);
    }

    /** set_function: the holder receives the function and its code, recorded as one step. */
    method HandOver(rt: LLVMState, f: IRFunction, code: CodeInfo)
      requires rt.Valid()
      modifies rt, ctx.holder
      ensures rt.Valid() && ctx.holder.func == f && ctx.holder.code == Some(code)
      ensures rt.trace == old(rt.trace) + [SetFunction(code)]
      ensures rt.independent == old(rt.independent)
      ensures rt.codeBytes == old(rt.codeBytes) && rt.codeResources == old(rt.codeResources)
    {
      ctx.holder.SetFunction(f, code);
      rt.Record(SetFunction(code));
    }

    /** compile: the block path iff the request is for a block. */
    method Compile(rt: LLVMState, req: Request, f: IRFunction, supported: bool)
      requires Valid() && rt.Valid() && Registered(rt) && f.Valid() && !f.released
      modifies this, ctx, rt
      ensures Valid() && rt.Valid() && Registered(rt)
      ensures func == (if supported then f else null) && mci == old(mci)
      ensures ctx.root == Some(InfoFor(req))
      ensures rt.trace == old(rt.trace) + BuildTrace(KindFor(req), supported)
      ensures rt.codeBytes == old(rt.codeBytes) && rt.codeResources == old(rt.codeResources)
      ensures rt.independent == old(rt.independent)
    {
      if req.isBlock {
        CompileBlock(rt, req.cm, req.vmmethod, f, supported);
      } else {
        CompileMethod(rt, req, f, supported);
      }
    }

    /** compile_block: a block unit; the block's parent (vmm.parent) is not consulted, so parentless blocks compile too. */
    method CompileBlock(rt: LLVMState, cm: CompiledMethod, vmm: VMMethod, f: IRFunction, supported: bool)
      requires Valid() && rt.Valid() && Registered(rt) && f.Valid() && !f.released
      modifies this, ctx, rt
      ensures Valid() && rt.Valid() && Registered(rt)
      ensures func == (if supported then f else null) && mci == old(mci)
      ensures ctx.root == Some(MethodInfo(cm, vmm, true, None))
      ensures rt.trace == old(rt.trace) + BuildTrace(BlockBuilder, supported)
      ensures rt.codeBytes == old(rt.codeBytes) && rt.codeResources == old(rt.codeResources)
      ensures rt.independent == old(rt.independent)
    {
      var info := MethodInfo(cm, vmm, true, None);
      ghost var t0 := rt.trace;
      Root(rt, info, BlockBuilder);
      CompileBuilder(rt, BlockBuilder, f, supported);
      Assoc(t0, [SetRoot, Setup(BlockBuilder)], BodyTrace(BlockBuilder, supported));
    }

    /** compile_method: a method unit over the method's own body, specialized to the receiver class if any. */
    method CompileMethod(rt: LLVMState, req: Request, f: IRFunction, supported: bool)
      requires Valid() && rt.Valid() && Registered(rt) && f.Valid() && !f.released
      modifies this, ctx, rt
      ensures Valid() && rt.Valid() && Registered(rt)
      ensures func == (if supported then f else null) && mci == old(mci)
      ensures ctx.root == Some(MethodInfo(req.cm, req.cm.backendMethod, false, req.receiverClass))
      ensures rt.trace == old(rt.trace) + BuildTrace(MethodBuilder, supported)
      ensures rt.codeBytes == old(rt.codeBytes) && rt.codeResources == old(rt.codeResources)
      ensures rt.independent == old(rt.independent)
    {
      var cm := req.cm;
      var info := MethodInfo(cm, cm.backendMethod, false, None);
      if req.receiverClass.Some? {
        info := info.(selfClass := req.receiverClass);
      }
      ghost var t0 := rt.trace;
      Root(rt, info, MethodBuilder);
      CompileBuilder(rt, MethodBuilder, f, supported);
      Assoc(t0, [SetRoot, Setup(MethodBuilder)], BodyTrace(MethodBuilder, supported));
    }

    /** set_root, then the builder's setup. */
    method Root(rt: LLVMState, info: MethodInfo, kind: BuilderKind)
      requires rt.Valid()
      modifies ctx, rt
      ensures rt.Valid() && ctx.root == Some(info)
      ensures rt.trace == old(rt.trace) + [SetRoot, Setup(kind)]
      ensures rt.codeBytes == old(rt.codeBytes) && rt.codeResources == old(rt.codeResources)
      ensures rt.independent == old(rt.independent)
    {
      ctx.SetRoot(info);
      rt.Record(SetRoot);
      rt.Record(Setup(kind));
    }

    /** compile_builder: keep the function only if generate_body succeeded, then add the hard return. */
    method CompileBuilder(rt: LLVMState, kind: BuilderKind, f: IRFunction, supported: bool)
      requires Valid() && rt.Valid() && Registered(rt) && f.Valid() && !f.released
      modifies this, rt
      ensures Valid() && rt.Valid() && Registered(rt)
      ensures func == (if supported then f else null) && mci == old(mci)
      ensures rt.trace == old(rt.trace) + BodyTrace(kind, supported)
      ensures rt.codeBytes == old(rt.codeBytes) && rt.codeResources == old(rt.codeResources)
      ensures rt.independent == old(rt.independent)
    {
      func := f;
      rt.Record(GenerateBody(kind));
      if !supported {
        func := null;
        return;
      }
      rt.Record(GenerateHardReturn(kind));
    }
  }
}

/**
 * What the step traces of compile and generate_function promise: balanced
 * GC toggles, exact accounting, registration once and only on success, and
 * the order of the installation steps.
 */
module JitProperties {
  import opened Wrappers
  import opened IR
  import opened Runtime
  import opened Jit

  lemma TogglesOfNeutral(t: seq<Event>)
    requires forall k :: 0 <= k < |t| ==> Neutral(t[k])
    ensures Toggles(t) == [] && BytesAdded(t) == 0 && Registrations(t) == 0
  {
    if t != [] {
      TogglesOfNeutral(t[1..]);
    }
  }

  lemma TogglesOfToggle(indy: bool, e: Event)
    requires IsToggle(e)
    ensures Toggles(Toggle(indy, e)) == Toggle(indy, e)
    ensures BytesAdded(Toggle(indy, e)) == 0 && Registrations(Toggle(indy, e)) == 0
  {
    if indy {
      assert Toggle(indy, e)[1..] == [];
    }
  }

  lemma RegisterTraceCounts(indy: bool, code: CodeInfo)
    ensures Toggles(RegisterTrace(indy, code)) == Toggle(indy, GcDependent)
    ensures BytesAdded(RegisterTrace(indy, code)) == 0
    ensures Registrations(RegisterTrace(indy, code)) == 1
  {
    var tail := [SetFunction(code), Event.AddCodeResource];
    TogglesOfToggle(indy, GcDependent);
    TogglesConcat(Toggle(indy, GcDependent), tail);
    BytesAddedConcat(Toggle(indy, GcDependent), tail);
    RegistrationsConcat(Toggle(indy, GcDependent), tail);
    assert tail[1..] == [Event.AddCodeResource];
    assert tail[1..][1..] == [];
  }

  lemma LowerTraceCounts(debug: bool, code: CodeInfo)
    ensures Toggles(LowerTrace(debug, code)) == []
    ensures BytesAdded(LowerTrace(debug, code)) == code.size
    ensures Registrations(LowerTrace(debug, code)) == 0
  {
    var front := [RunPasses, RunJit(code), AddCodeBytes(code.size)];
    var drop: seq<Event> := if debug then [] else [Event.DropAllReferences];
    TogglesOfNeutral(drop);
    TogglesConcat(front, drop);
    BytesAddedConcat(front, drop);
    RegistrationsConcat(front, drop);
    var last := [AddCodeBytes(code.size)];
    assert last[1..] == [];
    assert Toggles(last) == [] && BytesAdded(last) == code.size && Registrations(last) == 0;
    assert front[1..] == [RunJit(code)] + last;
    TogglesOfNeutral([RunPasses, RunJit(code)]);
    TogglesConcat([RunPasses, RunJit(code)], last);
    BytesAddedConcat([RunPasses, RunJit(code)], last);
    RegistrationsConcat([RunPasses, RunJit(code)], last);
    assert front == [RunPasses, RunJit(code)] + last;
  }

  /** generate_function's steps before the verdict's consequences, and after them. */
  lemma GenerateTraceParts(indy: bool, debug: bool, broken: bool, rejected: bool, code: CodeInfo)
    ensures var head := Toggle(indy, GcIndependent) + Verdict(broken, rejected);
      GenerateTrace(indy, debug, broken, rejected, code)
      == head + (if broken || rejected then Toggle(indy, GcDependent) else LowerTrace(debug, code) + RegisterTrace(indy, code))
    ensures var head := Toggle(indy, GcIndependent) + Verdict(broken, rejected);
      Toggles(head) == Toggle(indy, GcIndependent) && BytesAdded(head) == 0 && Registrations(head) == 0
  {
    var a := Toggle(indy, GcIndependent);
    var b := Verdict(broken, rejected);
    TogglesOfToggle(indy, GcIndependent);
    TogglesOfNeutral(b);
    TogglesConcat(a, b);
    BytesAddedConcat(a, b);
    RegistrationsConcat(a, b);
  }

  lemma SuccessTailCounts(indy: bool, debug: bool, code: CodeInfo)
    ensures Toggles(LowerTrace(debug, code) + RegisterTrace(indy, code)) == Toggle(indy, GcDependent)
    ensures BytesAdded(LowerTrace(debug, code) + RegisterTrace(indy, code)) == code.size
    ensures Registrations(LowerTrace(debug, code) + RegisterTrace(indy, code)) == 1
  {
    LowerTraceCounts(debug, code);
    RegisterTraceCounts(indy, code);
    TogglesConcat(LowerTrace(debug, code), RegisterTrace(indy, code));
    BytesAddedConcat(LowerTrace(debug, code), RegisterTrace(indy, code));
    RegistrationsConcat(LowerTrace(debug, code), RegisterTrace(indy, code));
  }

  /**
   * With indy, generate_function enters the GC-independent state once and
   * leaves it once, on the abort path and on the success path alike; without
   * indy it toggles nothing. Either way it ends GC-dependent.
   */
  lemma GcTogglesBalanced(indy: bool, debug: bool, broken: bool, rejected: bool, code: CodeInfo)
    ensures Toggles(GenerateTrace(indy, debug, broken, rejected, code)) == if indy then [GcIndependent, GcDependent] else []
    ensures !IndependentAfter(GenerateTrace(indy, debug, broken, rejected, code))
  {
    var head := Toggle(indy, GcIndependent) + Verdict(broken, rejected);
    var tail := if broken || rejected then Toggle(indy, GcDependent) else LowerTrace(debug, code) + RegisterTrace(indy, code);
    GenerateTraceParts(indy, debug, broken, rejected, code);
    if broken || rejected {
      TogglesOfToggle(indy, GcDependent);
    } else {
      SuccessTailCounts(indy, debug, code);
    }
    TogglesConcat(head, tail);
  }

  /** The code-byte counter grows by exactly the machine-code size on success and not at all on failure. */
  lemma CodeBytesExact(indy: bool, debug: bool, broken: bool, rejected: bool, code: CodeInfo)
    ensures BytesAdded(GenerateTrace(indy, debug, broken, rejected, code)) == if broken || rejected then 0 else code.size
  {
    var head := Toggle(indy, GcIndependent) + Verdict(broken, rejected);
    var tail := if broken || rejected then Toggle(indy, GcDependent) else LowerTrace(debug, code) + RegisterTrace(indy, code);
    GenerateTraceParts(indy, debug, broken, rejected, code);
    if broken || rejected {
      TogglesOfToggle(indy, GcDependent);
    } else {
      SuccessTailCounts(indy, debug, code);
    }
    BytesAddedConcat(head, tail);
  }

  /** The holder is registered exactly once on success, never on failure. */
  lemma RegisteredOnlyOnSuccess(indy: bool, debug: bool, broken: bool, rejected: bool, code: CodeInfo)
    ensures Registrations(GenerateTrace(indy, debug, broken, rejected, code)) == if broken || rejected then 0 else 1
  {
    var head := Toggle(indy, GcIndependent) + Verdict(broken, rejected);
    var tail := if broken || rejected then Toggle(indy, GcDependent) else LowerTrace(debug, code) + RegisterTrace(indy, code);
    GenerateTraceParts(indy, debug, broken, rejected, code);
    if broken || rejected {
      TogglesOfToggle(indy, GcDependent);
    } else {
      SuccessTailCounts(indy, debug, code);
    }
    RegistrationsConcat(head, tail);
  }

  /** What the successful pipeline does before it touches the holder. */
  function SuccessPrefix(indy: bool, debug: bool, code: CodeInfo): seq<Event> {
    Toggle(indy, GcIndependent) + Verdict(false, false) + LowerTrace(debug, code) + Toggle(indy, GcDependent)
  }

  /** Whether a step acts on the runtime-data holder. */
  predicate TouchesHolder(e: Event) {
    e.SetFunction? || e == Event.AddCodeResource
  }

  lemma SuccessShape(indy: bool, debug: bool, code: CodeInfo)
    ensures GenerateTrace(indy, debug, false, false, code)
            == SuccessPrefix(indy, debug, code) + [SetFunction(code), Event.AddCodeResource]
    ensures forall e :: e in SuccessPrefix(indy, debug, code) ==> !TouchesHolder(e)
  {
    GenerateTraceOnSuccess(indy, debug, code);
    Assoc(Toggle(indy, GcIndependent) + Verdict(false, false), LowerTrace(debug, code), RegisterTrace(indy, code));
  }

  /** The abort path consists of GC toggles and at most one verifier verdict. */
  lemma FailureShape(indy: bool, debug: bool, broken: bool, rejected: bool, code: CodeInfo)
    requires broken || rejected
    ensures forall e :: e in GenerateTrace(indy, debug, broken, rejected, code) ==> IsToggle(e) || e.Verify? || e == Event.CleanupBlocks
  {
    GenerateTraceOnFailure(indy, debug, broken, rejected, code);
  }

  lemma SuccessPrefixSettles(indy: bool, debug: bool, code: CodeInfo)
    ensures !IndependentAfter(SuccessPrefix(indy, debug, code))
  {
    var t := GenerateTrace(indy, debug, false, false, code);
    var tail := [SetFunction(code), Event.AddCodeResource];
    SuccessShape(indy, debug, code);
    GcTogglesBalanced(indy, debug, false, false, code);
    var last := [Event.AddCodeResource];
    assert last[1..] == [];
    assert Toggles(last) == [];
    TogglesOfNeutral([SetFunction(code)]);
    TogglesConcat([SetFunction(code)], last);
    assert tail == [SetFunction(code)] + last;
    IndependentAfterConcat(SuccessPrefix(indy, debug, code), tail);
  }

  /**
   * On success: the bytes are accounted, then (with indy) the thread becomes
   * GC-dependent, then the holder gets the code, then the holder is registered.
   */
  lemma InstallOrder(indy: bool, debug: bool, code: CodeInfo)
    ensures var t := GenerateTrace(indy, debug, false, false, code);
      exists i, k, l :: 0 <= i < k < l < |t|
        && t[i] == AddCodeBytes(code.size) && t[k] == SetFunction(code) && t[l] == Event.AddCodeResource
    ensures var t := GenerateTrace(indy, debug, false, false, code);
      indy ==> (exists i, j, k, l :: 0 <= i < j < k < l < |t|
                 && t[i] == AddCodeBytes(code.size) && t[j] == GcDependent
                 && t[k] == SetFunction(code) && t[l] == Event.AddCodeResource)
  {
    var t := GenerateTrace(indy, debug, false, false, code);
    var pre := SuccessPrefix(indy, debug, code);
    var front := Toggle(indy, GcIndependent) + Verdict(false, false);
    var lower := LowerTrace(debug, code);
    SuccessShape(indy, debug, code);
    var n := |pre|;
    assert t[n] == SetFunction(code) && t[n + 1] == Event.AddCodeResource;
    var i := |front| + 2;
    assert pre == front + lower + Toggle(indy, GcDependent);
    assert pre[i] == lower[2] == AddCodeBytes(code.size);
    assert t[i] == pre[i];
    assert i < n;
    if indy {
      assert pre[n - 1] == GcDependent;
      assert t[n - 1] == pre[n - 1];
      assert i < n - 1;
    }
  }

  /**
   * With indy, generate_function first enters the GC-independent state and
   * cleans the blocks right after. Every step up to its single gc_dependent
   * lies inside that bracket, and only the holder's set_function and
   * add_code_resource come after it.
   */
  lemma CleanupInsideBracket(debug: bool, broken: bool, rejected: bool, code: CodeInfo)
    ensures var t := GenerateTrace(true, debug, broken, rejected, code);
      t[0] == GcIndependent && t[1] == Event.CleanupBlocks
    ensures var t := GenerateTrace(true, debug, broken, rejected, code);
      exists j :: 1 < j < |t| && t[j] == GcDependent
        && (forall k :: 0 < k < j ==> !IsToggle(t[k]) && !TouchesHolder(t[k]))
        && (forall k :: j < k < |t| ==> TouchesHolder(t[k]))
  {
    var t := GenerateTrace(true, debug, broken, rejected, code);
    var v := Verdict(broken, rejected);
    if broken || rejected {
      GenerateTraceOnFailure(true, debug, broken, rejected, code);
      assert t == [GcIndependent] + v + [GcDependent];
      var j := |t| - 1;
      forall k | 0 < k < j
        ensures !IsToggle(t[k]) && !TouchesHolder(t[k])
      {
        assert t[k] == v[k - 1];
      }
      assert t[j] == GcDependent;
    } else {
      var mid := v + LowerTrace(debug, code);
      SuccessShape(true, debug, code);
      assert SuccessPrefix(true, debug, code) == [GcIndependent] + mid + [GcDependent];
      var j := 1 + |mid|;
      assert forall e :: e in mid ==> !IsToggle(e) && !TouchesHolder(e);
      forall k | 0 < k < j
        ensures !IsToggle(t[k]) && !TouchesHolder(t[k])
      {
        assert t[k] == mid[k - 1];
      }
      assert t[j] == GcDependent;
      assert t[j + 1] == SetFunction(code) && t[j + 2] == Event.AddCodeResource && |t| == j + 3;
    }
  }

  /**
   * The holder is handed the code and registered only on success and only
   * while the thread is GC-dependent: the state generate_function entered has
   * been left by then.
   */
  lemma HolderTouchedOutsideIndependence(indy: bool, debug: bool, broken: bool, rejected: bool, code: CodeInfo, k: nat)
    requires var t := GenerateTrace(indy, debug, broken, rejected, code);
      k < |t| && TouchesHolder(t[k])
    ensures !broken && !rejected
    ensures !IndependentAfter(GenerateTrace(indy, debug, broken, rejected, code)[..k])
  {
    var t := GenerateTrace(indy, debug, broken, rejected, code);
    if broken || rejected {
      FailureShape(indy, debug, broken, rejected, code);
      assert false;
    }
    var pre := SuccessPrefix(indy, debug, code);
    SuccessShape(indy, debug, code);
    SuccessPrefixSettles(indy, debug, code);
    if k < |pre| {
      assert false;
    }
    if k == |pre| {
      assert t[..k] == pre;
    } else {
      assert t[..k] == pre + [SetFunction(code)];
      TogglesOfNeutral([SetFunction(code)]);
      IndependentAfterConcat(pre, [SetFunction(code)]);
    }
  }

  /**
   * Where a step of the successful pipeline sits: in the prefix before
   * lowering, in LowerTrace at some offset, or in the registration suffix.
   */
  lemma SuccessLayout(indy: bool, debug: bool, code: CodeInfo, k: nat)
    requires k < |GenerateTrace(indy, debug, false, false, code)|
    ensures var t := GenerateTrace(indy, debug, false, false, code);
      var front := Toggle(indy, GcIndependent) + Verdict(false, false);
      var lower := LowerTrace(debug, code);
      && t == front + lower + RegisterTrace(indy, code)
      && (k < |front| ==> t[k] in front)
      && (|front| <= k < |front| + |lower| ==> t[k] == lower[k - |front|])
      && (|front| + |lower| <= k ==> t[k] in RegisterTrace(indy, code))
  {
    GenerateTraceOnSuccess(indy, debug, code);
    Assoc(Toggle(indy, GcIndependent) + Verdict(false, false), LowerTrace(debug, code), RegisterTrace(indy, code));
  }

  /**
   * The execution engine runs only after the verifier accepted the function:
   * what precedes it is the toggle, the accepting verdict and the passes.
   */
  lemma LoweredOnlyWhenVerified(indy: bool, debug: bool, broken: bool, rejected: bool, code: CodeInfo, k: nat)
    requires var t := GenerateTrace(indy, debug, broken, rejected, code);
      k < |t| && t[k].RunJit?
    ensures !broken && !rejected
    ensures GenerateTrace(indy, debug, broken, rejected, code)[..k] == Toggle(indy, GcIndependent) + Verdict(false, false) + [RunPasses]
  {
    var t := GenerateTrace(indy, debug, broken, rejected, code);
    if broken || rejected {
      FailureShape(indy, debug, broken, rejected, code);
      assert false;
    }
    var front := Toggle(indy, GcIndependent) + Verdict(false, false);
    var lower := LowerTrace(debug, code);
    SuccessLayout(indy, debug, code, k);
    assert |front| <= k < |front| + |lower|;
    assert k == |front| + 1;
    assert t[..k] == front + lower[..1];
  }

  /** The body is released exactly when the function was lowered outside debug mode, and only after lowering. */
  lemma ReleasedUnlessDebug(indy: bool, debug: bool, broken: bool, rejected: bool, code: CodeInfo)
    ensures var t := GenerateTrace(indy, debug, broken, rejected, code);
      Event.DropAllReferences in t <==> !debug && !broken && !rejected
    ensures var t := GenerateTrace(indy, debug, broken, rejected, code);
      forall k :: 0 <= k < |t| && t[k] == Event.DropAllReferences ==> RunJit(code) in t[..k]
  {
    var t := GenerateTrace(indy, debug, broken, rejected, code);
    if broken || rejected {
      FailureShape(indy, debug, broken, rejected, code);
      return;
    }
    var front := Toggle(indy, GcIndependent) + Verdict(false, false);
    var lower := LowerTrace(debug, code);
    if !debug {
      SuccessLayout(indy, debug, code, |front| + 3);
    }
    if Event.DropAllReferences in t {
      var k :| 0 <= k < |t| && t[k] == Event.DropAllReferences;
      SuccessLayout(indy, debug, code, k);
    }
    forall k | 0 <= k < |t| && t[k] == Event.DropAllReferences
      ensures RunJit(code) in t[..k]
    {
      SuccessLayout(indy, debug, code, k);
      assert k == |front| + 3;
      assert t[..k][|front| + 1] == lower[1];
    }
  }

  /**
   * compile, compile_method and compile_block: the root info is set before
   * the builder runs, generate_hard_return is called exactly when the body
   * was generated, once and as the last step, and nothing here toggles the
   * GC state, accounts bytes or registers a holder.
   */
  lemma BuildHardReturnOnce(kind: BuilderKind, supported: bool)
    ensures var t := BuildTrace(kind, supported);
      t[0] == SetRoot && t[1] == Setup(kind) && t[2] == GenerateBody(kind)
    ensures var t := BuildTrace(kind, supported);
      (GenerateHardReturn(kind) in t <==> supported)
      && (supported ==> t[|t| - 1] == GenerateHardReturn(kind))
      && forall k :: 0 <= k < |t| - 1 ==> !t[k].GenerateHardReturn?
    ensures var t := BuildTrace(kind, supported);
      Toggles(t) == [] && BytesAdded(t) == 0 && Registrations(t) == 0
  {
    var t := BuildTrace(kind, supported);
    TogglesOfNeutral(t);
  }

  /**
   * Code is generated only for a function whose every block either ends in a
   * terminator or is an empty block nobody jumps to (and so was erased).
   */
  lemma InstalledIsWellTerminated(backend: Backend, bs: seq<Block>, i: nat)
    requires !Failed(backend, bs) && i < |bs|
    ensures Removable(bs[i]) || Terminated(bs[i])
  {
    if !Removable(bs[i]) {
      KeptMembers(bs, bs[i]);
      var j :| 0 <= j < |Kept(bs)| && Kept(bs)[j] == bs[i];
      assert Terminated(Kept(bs)[j]);
    }
  }

  /**
   * An empty block nobody jumps to is dead scaffolding: adding it anywhere
   * never changes whether generate_function fails, nor what is lowered.
   */
  lemma DeadBlockNeverFails(backend: Backend, a: seq<Block>, b: Block, c: seq<Block>)
    requires Removable(b)
    ensures Failed(backend, a + [b] + c) <==> Failed(backend, a + c)
    ensures backend.lower(Kept(a + [b] + c)) == backend.lower(Kept(a + c))
  {
    RemovableBlockIsInvisible(a, b, c);
    BrokenSurvivesCleanup(a + [b] + c);
    BrokenSurvivesCleanup(a + c);
  }

  /**
   * A unit whose body could not be generated never yields code: after
   * compile, generate_function answers NULL without toggling the GC state or
   * touching the counter or the registry.
   */
  method UnsupportedBodyInstallsNothing(c: Compiler, rt: LLVMState, req: Request, f: IRFunction, indy: bool)
    returns (p: nat)
    requires c.Valid() && rt.Valid() && c.Registered(rt) && f.Valid() && !f.released && c.mci.None?
    modifies c, c.ctx, c.ctx.holder, rt
    ensures p == NULL && c.func == null && c.mci == None
    ensures rt.codeBytes == old(rt.codeBytes) && rt.codeResources == old(rt.codeResources)
    ensures rt.independent == old(rt.independent)
    ensures rt.trace == old(rt.trace) + BuildTrace(KindFor(req), false)
  {
    c.Compile(rt, req, f, false);
    p := c.GenerateFunction(rt, indy);
  }

  /**
   * generate_function called twice: the second call answers what the first
   * did, and between them the holder is registered and the code bytes are
   * accounted at most once.
   */
  method RepeatIsCached(c: Compiler, rt: LLVMState, indy: bool, indyAgain: bool) returns (p: nat, again: nat)
    requires c.Valid() && rt.Valid() && c.Registered(rt)
    modifies c, rt, c.ctx.holder, c.func
    ensures again == p && p == c.FunctionPointer()
    ensures p == NULL ==> rt.codeBytes == old(rt.codeBytes) && rt.codeResources == old(rt.codeResources)
    ensures p != NULL && old(c.mci).None? ==>
      rt.codeBytes == old(rt.codeBytes) + c.mci.value.size
      && rt.codeResources == old(rt.codeResources) + [c.ctx.holder]
    ensures old(c.mci).Some? ==> rt.codeBytes == old(rt.codeBytes) && rt.codeResources == old(rt.codeResources)
  {
    p := c.GenerateFunction(rt, indy);
    again := c.GenerateFunction(rt, indyAgain);
  }

  /** One generate_function pipeline run of some unit, by its inputs and oracle answers. */
  datatype Run = Run(indy: bool, debug: bool, broken: bool, rejected: bool, code: CodeInfo)

  predicate Succeeded(r: Run) {
    !r.broken && !r.rejected
  }

  /** The steps of several pipeline runs, one after the other. */
  function RunsTrace(rs: seq<Run>): seq<Event> {
    if rs == [] then []
    else GenerateTrace(rs[0].indy, rs[0].debug, rs[0].broken, rs[0].rejected, rs[0].code) + RunsTrace(rs[1..])
  }

  /** The machine-code sizes the successful runs report, summed. */
  function InstalledBytes(rs: seq<Run>): nat {
    if rs == [] then 0
    else (if Succeeded(rs[0]) then rs[0].code.size else 0) + InstalledBytes(rs[1..])
  }

  function SuccessCount(rs: seq<Run>): nat {
    if rs == [] then 0
    else (if Succeeded(rs[0]) then 1 else 0) + SuccessCount(rs[1..])
  }

  /**
   * After any sequence of pipeline runs the code-byte counter has grown by
   * exactly the sum of the successful runs' sizes, the registry by one holder
   * per success, and the thread is not left GC-independent.
   */
  lemma {:induction false} AccountingOverRuns(rs: seq<Run>)
    ensures BytesAdded(RunsTrace(rs)) == InstalledBytes(rs)
    ensures Registrations(RunsTrace(rs)) == SuccessCount(rs)
    ensures !IndependentAfter(RunsTrace(rs))
  {
    if rs != [] {
      var r := rs[0];
      var head := GenerateTrace(r.indy, r.debug, r.broken, r.rejected, r.code);
      AccountingOverRuns(rs[1..]);
      CodeBytesExact(r.indy, r.debug, r.broken, r.rejected, r.code);
      RegisteredOnlyOnSuccess(r.indy, r.debug, r.broken, r.rejected, r.code);
      GcTogglesBalanced(r.indy, r.debug, r.broken, r.rejected, r.code);
      BytesAddedConcat(head, RunsTrace(rs[1..]));
      RegistrationsConcat(head, RunsTrace(rs[1..]));
      IndependentAfterConcat(head, RunsTrace(rs[1..]));
    }
  }
}
