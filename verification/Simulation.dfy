/** Compiled code does what the structured semantics says. */
module Simulation {
  import opened Values
  import opened Label
  import opened Ir
  import opened Wasm
  import opened Text
  import opened Chains
  import opened Frames
  import opened Extension
  import opened Typing
  import opened Locals
  import opened Machine

  // ----- one activation -----

  /** A running call: which function of which module, the finished code, the stack under the
      arguments, the two header words, and the calls further out; and the program points of all loaded
    functions: where the compiler emitted an instruction, and how many operand words it counted there. */
  type PointMap = (nat, nat) -> set<(int, nat)>

  datatype Site = Site(
    s: Store, code: seq<Word>, options: Options, module_: nat, index: nat, f: Func,
    below: seq<U32>, header: U32, back: U32, outer: seq<Activation>, points: PointMap)
  {
    function Fp(): nat { |below| + f.ParamWords() }

    function Call(): Activation { Activation(module_, index, Fp(), f.ParamWords(), f.LocalWords(), f.usage) }

    /** The program points of the function that runs. */
    function Here(): set<(int, nat)> { points(module_, index) }

    function Types(): seq<ValType> { LocalTypes(f.sig, f.groups) }
  }

  function ContextOf(x: Site): Context {
    Context(x.f.sig, x.f.groups, if x.module_ < |x.s.modules| then x.s.modules[x.module_].index else [], x.options)
  }

  /** Returning leads back into the frame of the caller, or out of the engine. */
  predicate ReturnOk(x: Site) {
    && HeaderParams(x.header) == x.f.ParamWords()
    && HeaderLength(x.header) <= x.Fp()
    && CallerModule(x) < |x.s.modules|
    && if x.back == SENTINEL then x.outer == []
       else
         && x.outer != []
         && var a := x.outer[|x.outer| - 1];
            a.fp == x.Fp() - HeaderLength(x.header)
            && a.Base() <= |x.below| && |x.below| + ResultWords(x.f.sig.result) <= a.Limit()
  }

  function CallerModule(x: Site): nat {
    if HeaderDelta(x.header) != 0 then ModuleBack(x.module_, HeaderDelta(x.header)) else x.module_
  }

  ghost predicate SiteOk(x: Site) {
    && Linked(x.s) && HostsTyped(x.s) && OptionsOk(x.options)
    && x.module_ < |x.s.modules|
    && x.index < |x.s.modules[x.module_].functions| && x.s.modules[x.module_].functions[x.index] == x.f
    && x.f.ParamWords() <= 0xFF
    && 2 + x.f.LocalWords() + x.f.usage <= 0xFFFF
    && x.Call().Limit() <= x.s.stackWords
    && |x.code| < 0x8000_0000
    && ReturnOk(x)
  }

  predicate LocalsOk(x: Site, locals: seq<Value>) { TypesOf(locals) == x.Types() }

  /** The frame: arguments, header, declared locals. */
  function FrameWords(x: Site, locals: seq<Value>): seq<U32>
    requires LocalsOk(x, locals)
  {
    x.below + Flat(locals[..|x.f.sig.params|]) + [x.header, x.back] + Flat(locals[|x.f.sig.params|..])
  }

  lemma FrameLength(x: Site, locals: seq<Value>)
    requires LocalsOk(x, locals)
    ensures |FrameWords(x, locals)| == x.Call().Base()
    ensures |x.below| + |Flat(locals[..|x.f.sig.params|])| == x.Fp()
  {
    var np := |x.f.sig.params|;
    FlatLen(locals[..np]);
    FlatLen(locals[np..]);
    assert TypesOf(locals[..np]) == TypesOf(locals)[..np] == x.f.sig.params;
    assert TypesOf(locals[np..]) == TypesOf(locals)[np..] == GroupTypes(x.f.groups);
  }

  /** The machine in this activation, with the given locals and operands. */
  function MachAt(x: Site, pc: int, locals: seq<Value>, operands: seq<Value>, trace: seq<HostCall>): Mach
    requires LocalsOk(x, locals)
  {
    Mach(pc, x.Fp(), FrameWords(x, locals) + Flat(operands), x.module_, trace, x.outer + [x.Call()])
  }

  lemma StartsAt(x: Site, pc: int, locals: seq<Value>, operands: seq<Value>, trace: seq<HostCall>)
    requires LocalsOk(x, locals)
    ensures MachAt(x, pc, locals, operands, trace).pc == pc
    ensures MachAt(x, pc, locals, operands, trace).trace == trace
  {
    hide FrameWords;
  }

  lemma MachCalls(x: Site, pc: int, locals: seq<Value>, operands: seq<Value>, trace: seq<HostCall>)
    requires LocalsOk(x, locals)
    ensures var m := MachAt(x, pc, locals, operands, trace);
            && m.calls != [] && Current(m) == x.Call() && m.calls[..|m.calls| - 1] == x.outer
            && |m.live| == x.Call().Base() + |Flat(operands)|
  {
    FrameLength(x, locals);
  }

  /** Taking operands off and putting results on. */
  lemma ReplaceAt(
    x: Site, pc: int, locals: seq<Value>, keep: seq<Value>, args: seq<Value>, results: seq<Value>,
    trace: seq<HostCall>, n: nat, ws: seq<U32>, pc': int)
    requires LocalsOk(x, locals) && n == |Flat(args)| && ws == Flat(results)
    requires |Flat(keep + results)| <= x.f.usage
    ensures CanPop(MachAt(x, pc, locals, keep + args, trace), n)
    ensures Replace(MachAt(x, pc, locals, keep + args, trace), n, ws, pc')
         == Next(MachAt(x, pc', locals, keep + results, trace))
  {
    hide Flat, FrameWords;
    FlatConcat(keep, args);
    FlatConcat(keep, results);
    MachCalls(x, pc, locals, keep + args, trace);
    var m := MachAt(x, pc, locals, keep + args, trace);
    assert Below(m, n) == FrameWords(x, locals) + Flat(keep);
    assert FrameWords(x, locals) + Flat(keep) + Flat(results) == FrameWords(x, locals) + (Flat(keep) + Flat(results));
  }

  /** The topmost words are those of the topmost operands. */
  lemma TopWords(x: Site, pc: int, locals: seq<Value>, keep: seq<Value>, args: seq<Value>, trace: seq<HostCall>)
    requires LocalsOk(x, locals)
    ensures var m := MachAt(x, pc, locals, keep + args, trace);
            && CanPop(m, |Flat(args)|)
            && m.live[|m.live| - |Flat(args)|..] == Flat(args)
            && Below(m, |Flat(args)|) == FrameWords(x, locals) + Flat(keep)
  {
    hide Flat, FrameWords;
    FlatConcat(keep, args);
    MachCalls(x, pc, locals, keep + args, trace);
  }

  lemma FlatOne(v: Value)
    ensures Flat([v]) == ToWords(v)
  {
    assert [v][..0] == [];
  }

  // ----- returning -----

  /** The step that leaves this activation with the given result words. */
  function ReturnStep(x: Site, ws: seq<U32>, trace: seq<HostCall>): Step
    requires HeaderLength(x.header) <= x.Fp()
  {
    var fp := x.Fp() - HeaderLength(x.header);
    if x.back == SENTINEL then Finished(ws, |x.below|, fp, trace)
    else Next(Mach(AfterCall(x.back), fp, x.below + ws, CallerModule(x), trace, x.outer))
  }

  lemma HeaderAt(x: Site, pc: int, locals: seq<Value>, operands: seq<Value>, trace: seq<HostCall>)
    requires LocalsOk(x, locals)
    ensures var m := MachAt(x, pc, locals, operands, trace);
            x.Fp() + 2 <= |m.live| && m.live[x.Fp()] == x.header && m.live[x.Fp() + 1] == x.back
            && m.live[..|x.below|] == x.below
  {
    FrameLength(x, locals);
  }

  lemma ReturnAt(
    x: Site, pc: int, locals: seq<Value>, keep: seq<Value>, results: seq<Value>, trace: seq<HostCall>)
    requires SiteOk(x) && LocalsOk(x, locals) && TypesOf(results) == ResultTypes(x.f.sig.result)
    ensures StepReturn(x.s, MachAt(x, pc, locals, keep + results, trace), ResultWords(x.f.sig.result))
         == ReturnStep(x, Flat(results), trace)
  {
    hide Flat, FrameWords, HeaderLength, HeaderParams, HeaderDelta, ModuleBack, Linked, HostsTyped;
    var m := MachAt(x, pc, locals, keep + results, trace);
    ResultLen(x.f.sig.result, results);
    TopWords(x, pc, locals, keep, results, trace);
    MachCalls(x, pc, locals, keep + results, trace);
    HeaderAt(x, pc, locals, keep + results, trace);
  }

  lemma ResultLen(r: ResultType, results: seq<Value>)
    requires TypesOf(results) == ResultTypes(r)
    ensures |Flat(results)| == ResultWords(r) <= 2 && |results| == ResultCount(r)
  {
    FlatLen(results);
    if r.Some? { assert [r.value][..0] == []; }
  }

  // ----- configurations -----

  /** The compile-time stack describes the operands: `outer` are those of enclosing blocks. */
  predicate Typed(x: Site, st: State, outer: seq<Value>, c: Config) {
    && StackOk(st) && Live(st) && LocalsOk(x, c.locals)
    && st.values == Knowns(TypesOf(outer + c.stack)) && |outer| == Innermost(st).height
    && st.highwater <= x.f.usage
  }

  /** The machine at the point of compilation `st`. */
  function MachOf(x: Site, st: State, outer: seq<Value>, c: Config): Mach
    requires LocalsOk(x, c.locals)
  {
    MachAt(x, |st.code|, c.locals, outer + c.stack, c.trace)
  }

  /** One instruction does what the semantics says, up to the state `st'` after compiling it. */
  ghost predicate StepSims(x: Site, st': State, outer: seq<Value>, m: Mach, o: Outcome) {
    match o
    case Normal(c') => Typed(x, st', outer, c') && Advance(x.s, x.code, m) == Next(MachOf(x, st', outer, c'))
    case Trap(r, t) => Advance(x.s, x.code, m) == Trapped(r, t)
    case _ => false
  }

  lemma TypesOfConcat(a: seq<Value>, b: seq<Value>)
    ensures TypesOf(a + b) == TypesOf(a) + TypesOf(b)
  {
  }

  lemma KnownsInjective(a: seq<ValType>, b: seq<ValType>)
    requires Knowns(a) == Knowns(b)
    ensures a == b
  {
    forall i | 0 <= i < |a| ensures a[i] == b[i] {
      assert Knowns(a)[i] == Known(a[i]) && Knowns(b)[i] == Known(b[i]);
    }
  }

  /** Operands the compiler has popped are there, with the types it has checked. */
  lemma TypedTop(x: Site, st: State, outer: seq<Value>, c: Config, ts: seq<ValType>)
    requires Typed(x, st, outer, c)
    requires |outer| <= |st.values| - |ts| && st.values[|st.values| - |ts|..] == Knowns(ts)
    ensures var k := |ts|;
            && k <= |c.stack|
            && TypesOf(Top(c.stack, k)) == ts
            && outer + c.stack == outer + c.stack[..|c.stack| - k] + Top(c.stack, k)
            && st.values[..|st.values| - k] == Knowns(TypesOf(outer + c.stack[..|c.stack| - k]))
  {
    var k := |ts|;
    var keep := outer + c.stack[..|c.stack| - k];
    var top := Top(c.stack, k);
    assert outer + c.stack == keep + top;
    TypesOfConcat(keep, top);
    KnownsConcat(TypesOf(keep), TypesOf(top));
    KnownsInjective(TypesOf(top), ts);
  }

  lemma KnownsConcat(a: seq<ValType>, b: seq<ValType>)
    ensures Knowns(a + b) == Knowns(a) + Knowns(b)
  {
  }

  /** The operands fit the words the function was found to use. */
  lemma TypedFits(x: Site, st: State, outer: seq<Value>, c: Config)
    requires Typed(x, st, outer, c)
    ensures |Flat(outer + c.stack)| <= x.f.usage
  {
    FlatLen(outer + c.stack);
    HeightKnowns(TypesOf(outer + c.stack));
  }

  /** Pushing a result over `keep`. */
  lemma TypedPush(x: Site, st: State, st1: State, outer: seq<Value>, c: Config, v: Value)
    requires StackOk(st) && Live(st) && LocalsOk(x, c.locals) && st.values == Knowns(TypesOf(outer + c.stack))
    requires |outer| == Innermost(st).height
    requires PushOperand(ContextOf(x), st, Known(v.Type())) == Result.Ok(st1) && st1.highwater <= x.f.usage
    ensures Typed(x, st1, outer, Push(c, v))
  {
    PushOk(ContextOf(x), st, Known(v.Type()));
    assert outer + (c.stack + [v]) == (outer + c.stack) + [v];
    TypesOfConcat(outer + c.stack, [v]);
    KnownsConcat(TypesOf(outer + c.stack), TypesOf([v]));
  }

  /** The machine fetches what the compiler emitted. */
  lemma Fetch(x: Site, st: State, st': State, i: Instr, goals: seq<Goal>, lo: nat, m: Mach)
    requires SiteOk(x) && Encodable(i) && ChainsOk(st, lo)
    requires Emit(ContextOf(x), st, Encode(i)) == Result.Ok(st') && Agree(x.code, st', goals)
    requires m.pc == |st.code|
    ensures StepOnce(x.s, x.code, m) == StepInstr(x.s, i, |st'.code|, m)
  {
    hide *;
    FetchOptions(x);
    FetchLength(x, st, st', i);
    EmittedAt(ContextOf(x), x.code, st, Encode(i), goals, lo);
    DecodeEncode(x.code, |st.code|, i);
    Dispatch(x.s, x.code, m, i, |st'.code|);
  }

  lemma Dispatch(s: Store, code: seq<Word>, m: Mach, i: Instr, next: nat)
    requires m.pc >= 0 && Decode(code, m.pc) == Decoded.Instr(i, next)
    ensures StepOnce(s, code, m) == StepInstr(s, i, next, m)
  {
    hide *;
    UnfoldStep(s, code, m);
  }

  lemma UnfoldStep(s: Store, code: seq<Word>, m: Mach)
    ensures StepOnce(s, code, m) ==
            if m.pc < 0 then Unsafe
            else
              match Decode(code, m.pc)
              case OffEnd => Unsafe
              case Malformed => Trapped(MalformedIr, m.trace)
              case Instr(i, next) => StepInstr(s, i, next, m)
  {
    hide Decode, StepInstr;
  }

  lemma FetchOptions(x: Site)
    requires SiteOk(x)
    ensures OptionsOk(ContextOf(x).options)
  {
  }

  lemma FetchLength(x: Site, st: State, st': State, i: Instr)
    requires Encodable(i) && Emit(ContextOf(x), st, Encode(i)) == Result.Ok(st')
    ensures |st'.code| == |st.code| + |Encode(i)|
  {
    hide Encode;
  }

  // ----- instructions that stay in line -----

  lemma FlatTwo(v: Value, w: Value)
    ensures Flat([v, w]) == ToWords(v) + ToWords(w)
  {
    FlatPush([v], w);
    FlatOne(v);
    assert [v] + [w] == [v, w];
  }

  lemma JoinHalves(d: U64)
    ensures Join64(Low32(d), High32(d)) == d
  {
  }

  lemma UnarySim(op: NumOp, v: Value)
    requires NumParams(op) == [v.Type()]
    ensures |ToWords(v)| == WordLen(NumParams(op)) && TypesOf([v]) == NumParams(op)
    ensures EvalNum(op, [v]).Some? && NumWords(op, ToWords(v)) == Some(ToWords(EvalNum(op, [v]).value))
  {
    NumParamWords(op);
    assert TypesOf([v]) == [v.Type()];
    if v.I64? || v.F64? { JoinHalves(v.dword); }
    hide Low32, High32, Join64, WordLen;
  }

  lemma BinarySim(op: NumOp, v: Value, w: Value)
    requires NumParams(op) == [v.Type(), w.Type()]
    ensures |ToWords(v) + ToWords(w)| == WordLen(NumParams(op)) && TypesOf([v, w]) == NumParams(op)
    ensures match EvalNum(op, [v, w])
            case Some(r) => NumWords(op, ToWords(v) + ToWords(w)) == Some(ToWords(r))
            case None => NumWords(op, ToWords(v) + ToWords(w)) == None
  {
    NumParamWords(op);
    assert TypesOf([v, w]) == [v.Type(), w.Type()];
    hide Low32, High32, Join64, WordLen, DivU;
    if op.I64Eq? || op.I64Add? {
      WideBinary(op, v, w);
    } else {
      NarrowBinary(op, v, w);
    }
  }

  lemma NarrowBinary(op: NumOp, v: Value, w: Value)
    requires (op.I32Add? || op.I32DivU?) && NumParams(op) == [v.Type(), w.Type()] && TypesOf([v, w]) == NumParams(op)
    requires |ToWords(v) + ToWords(w)| == WordLen(NumParams(op))
    ensures match EvalNum(op, [v, w])
            case Some(r) => NumWords(op, ToWords(v) + ToWords(w)) == Some(ToWords(r))
            case None => NumWords(op, ToWords(v) + ToWords(w)) == None
  {
    hide WordLen;
    assert v.I32? && w.I32?;
    assert ToWords(v) + ToWords(w) == [v.word, w.word];
    if op.I32DivU? && w.word != 0 {
      DivShrinks(v.word, w.word);
      OneQuotient(v.word, w.word, v.word / w.word, DivU(v.word, w.word));
    }
  }

  lemma WideBinary(op: NumOp, v: Value, w: Value)
    requires (op.I64Eq? || op.I64Add?) && NumParams(op) == [v.Type(), w.Type()] && TypesOf([v, w]) == NumParams(op)
    requires |ToWords(v) + ToWords(w)| == WordLen(NumParams(op))
    ensures match EvalNum(op, [v, w])
            case Some(r) => NumWords(op, ToWords(v) + ToWords(w)) == Some(ToWords(r))
            case None => NumWords(op, ToWords(v) + ToWords(w)) == None
  {
    hide EvalNum, NumWords, WordLen, Low32, High32, Join64;
    assert v.I64? && w.I64?;
    JoinHalves(v.dword);
    JoinHalves(w.dword);
    assert ToWords(v) + ToWords(w) == [Low32(v.dword), High32(v.dword), Low32(w.dword), High32(w.dword)];
    WideValues(op, v.dword, w.dword);
    WideWords(op, Low32(v.dword), High32(v.dword), Low32(w.dword), High32(w.dword));
  }

  lemma WideValues(op: NumOp, a: U64, b: U64)
    requires op.I64Eq? || op.I64Add?
    ensures TypesOf([Value.I64(a), Value.I64(b)]) == NumParams(op)
    ensures EvalNum(op, [Value.I64(a), Value.I64(b)]) ==
            Some(if op.I64Add? then Value.I64((a + b) % 0x1_0000_0000_0000_0000) else Bool32(a == b))
  {
  }

  lemma WideWords(op: NumOp, a: U32, b: U32, c: U32, d: U32)
    requires op.I64Eq? || op.I64Add?
    ensures WordLen(NumParams(op)) == 4
    ensures NumWords(op, [a, b, c, d]) ==
            Some(if op.I64Add? then ToWords(Value.I64((Join64(a, b) + Join64(c, d)) % 0x1_0000_0000_0000_0000))
                 else Bool(Join64(a, b) == Join64(c, d)))
  {
    NumParamWords(op);
    hide WordLen, NumParams, Low32, High32, Join64;
  }

  /** The handlers compute on words what the specification computes on values. */
  lemma NumSim(op: NumOp, args: seq<Value>)
    requires TypesOf(args) == NumParams(op)
    ensures |Flat(args)| == WordLen(NumParams(op))
    ensures match EvalNum(op, args)
            case Some(v) => NumWords(op, Flat(args)) == Some(ToWords(v))
            case None => NumWords(op, Flat(args)) == None
  {
    hide Flat, WordLen, NumWords, EvalNum;
    assert |args| == |TypesOf(args)|;
    if |args| == 1 {
      assert args == [args[0]] && TypesOf(args) == [args[0].Type()];
      FlatOne(args[0]);
      UnarySim(op, args[0]);
    } else {
      assert args == [args[0], args[1]] && TypesOf(args) == [args[0].Type(), args[1].Type()];
      FlatTwo(args[0], args[1]);
      BinarySim(op, args[0], args[1]);
    }
  }

  lemma SameChains(st: State, st': State, lo: nat)
    requires ChainsOk(st, lo) && SameCode(st, st')
    ensures ChainsOk(st', lo)
  {
    ExtendsSame(st, st', lo);
  }

  lemma EmittedTyped(x: Site, st: State, st': State, outer: seq<Value>, c: Config)
    requires Typed(x, st, outer, c)
    requires st' == st.(code := st'.code)
    ensures Typed(x, st', outer, c)
  {
  }

  /** An instruction that replaces `args` by `results` on the stack, once its handler is known to do
      so on words. */
  lemma InlineSims(
    x: Site, st: State, st1: State, st': State, i: Instr, outer: seq<Value>, c: Config,
    rest: seq<Value>, args: seq<Value>, results: seq<Value>, goals: seq<Goal>, lo: nat)
    requires SiteOk(x) && Encodable(i) && ChainsOk(st, lo) && Typed(x, st, outer, c)
    requires c.stack == rest + args && SameCode(st, st1)
    requires Typed(x, st1, outer, c.(stack := rest + results))
    requires Emit(ContextOf(x), st1, Encode(i)) == Result.Ok(st') && Agree(x.code, st', goals)
    requires var m := MachOf(x, st, outer, c);
             StepInstr(x.s, i, |st'.code|, m) == Replace(m, |Flat(args)|, Flat(results), |st'.code|)
    ensures StepSims(x, st', outer, MachOf(x, st, outer, c), Normal(c.(stack := rest + results)))
  {
    hide Flat, FrameWords, Agree, ChainsOk, SiteOk, StackOk, Live, ChainOk, Chain, StepInstr, Encode, Replace;
    SameChains(st, st1, lo);
    Fetch(x, st1, st', i, goals, lo, MachOf(x, st, outer, c));
    var c' := c.(stack := rest + results);
    EmittedTyped(x, st1, st', outer, c');
    TypedFits(x, st', outer, c');
    assert outer + c.stack == (outer + rest) + args;
    assert outer + c'.stack == (outer + rest) + results;
    ReplaceAt(x, |st.code|, c.locals, outer + rest, args, results, c.trace, |Flat(args)|, Flat(results), |st'.code|);
  }

  lemma PushSame(c: Context, st: State, o: Operand)
    requires PushOperand(c, st, o).Ok?
    ensures SameCode(st, PushOperand(c, st, o).value)
  {
  }

  /** The numeric handler on operands whose types are known. */
  lemma NumericStep(
    x: Site, pc: int, locals: seq<Value>, keep: seq<Value>, args: seq<Value>, trace: seq<HostCall>, op: NumOp,
    next: int)
    requires LocalsOk(x, locals) && TypesOf(args) == NumParams(op)
    ensures var m := MachAt(x, pc, locals, keep + args, trace);
            StepNum(op, m, next) ==
            match EvalNum(op, args)
            case Some(v) => Replace(m, |Flat(args)|, Flat([v]), next)
            case None => Trapped(DivideByZero, trace)
  {
    hide Flat, FrameWords, NumWords, EvalNum, Replace, NumParams, WordLen, CanPop, MachAt, StepNum, Below;
    NumSim(op, args);
    StartsAt(x, pc, locals, keep + args, trace);
    TopWords(x, pc, locals, keep, args, trace);
    NumUnfold(op, MachAt(x, pc, locals, keep + args, trace), next);
    if EvalNum(op, args).Some? { FlatOne(EvalNum(op, args).value); }
  }

  lemma NumUnfold(op: NumOp, m: Mach, next: int)
    requires CanPop(m, WordLen(NumParams(op)))
    ensures var n := WordLen(NumParams(op));
            n <= |m.live| && StepNum(op, m, next) ==
            match NumWords(op, m.live[|m.live| - n..])
            case Some(ws) => Replace(m, n, ws, next)
            case None => Trapped(DivideByZero, m.trace)
  {
    hide NumWords, Replace, WordLen, NumParams;
  }

  /** Operands the compiler pops are the topmost ones, of the types it expects. */
  lemma TakeArgs(x: Site, st: State, outer: seq<Value>, c: Config, ts: seq<ValType>)
    requires Typed(x, st, outer, c) && PopTypes(st, ts).Ok?
    ensures |ts| <= |c.stack|
    ensures var (rest, args) := (c.stack[..|c.stack| - |ts|], Top(c.stack, |ts|));
            && c.stack == rest + args && TypesOf(args) == ts
            && PopTypes(st, ts).value == st.(values := Knowns(TypesOf(outer + rest)))
    ensures StackOk(PopTypes(st, ts).value) && Live(PopTypes(st, ts).value)
  {
    hide PopTypes, StackOk, Live;
    PopTypesLive(st, ts);
    TypedTop(x, st, outer, c, ts);
  }

  lemma NumericCompiled(c: Context, st: State, st': State, op: NumOp)
    requires CompileNumeric(c, st, op) == Result.Ok(st')
    ensures PopTypes(st, NumParams(op)).Ok?
    ensures var st1 := PopTypes(st, NumParams(op)).value;
            && PushOperand(c, st1, Known(NumResult(op))).Ok?
            && Emit(c, PushOperand(c, st1, Known(NumResult(op))).value, Encode(Instr.Num(op))) == Result.Ok(st')
  {
    hide PopTypes, PushOperand, Emit, Imm8, NumOpcode;
  }

  lemma NumericSims(x: Site, st: State, st': State, op: NumOp, outer: seq<Value>, c: Config, goals: seq<Goal>, lo: nat)
    requires SiteOk(x) && ChainsOk(st, lo) && Typed(x, st, outer, c)
    requires CompileNumeric(ContextOf(x), st, op) == Result.Ok(st') && Agree(x.code, st', goals)
    requires st'.highwater <= x.f.usage
    ensures StepSims(x, st', outer, MachOf(x, st, outer, c), ExecNum(op, c))
  {
    hide Flat, FrameWords, Agree, ChainsOk, SiteOk, StackOk, Live, EvalNum, Height, ChainOk, Chain, PushOperand;
    hide StepNum, Emit, Encode, NumParams, PopTypes, CompileNumeric, ContextOf, MachAt, Replace, ExecNum;
    hide Typed, Top, StepSims;
    var cx := ContextOf(x);
    var ts := NumParams(op);
    NumericCompiled(cx, st, st', op);
    TakeArgs(x, st, outer, c, ts);
    var (rest, args) := (c.stack[..|c.stack| - |ts|], Top(c.stack, |ts|));
    var st1 := PopTypes(st, ts).value;
    var st2 := PushOperand(cx, st1, Known(NumResult(op))).value;
    PushSame(cx, st1, Known(NumResult(op)));
    EmitSame(cx, st2, Encode(Instr.Num(op)));
    NumericEnd(x, st, st1, st2, st', op, outer, c, rest, args, goals, lo);
  }

  lemma NumericEnd(
    x: Site, st: State, st1: State, st2: State, st': State, op: NumOp, outer: seq<Value>, c: Config,
    rest: seq<Value>, args: seq<Value>, goals: seq<Goal>, lo: nat)
    requires SiteOk(x) && ChainsOk(st, lo) && Typed(x, st, outer, c)
    requires c.stack == rest + args && TypesOf(args) == NumParams(op)
    requires StackOk(st1) && Live(st1) && st1 == st.(values := Knowns(TypesOf(outer + rest)))
    requires PushOperand(ContextOf(x), st1, Known(NumResult(op))) == Result.Ok(st2) && SameCode(st, st2)
    requires Emit(ContextOf(x), st2, Encode(Instr.Num(op))) == Result.Ok(st') && Agree(x.code, st', goals)
    requires st2.highwater <= x.f.usage
    ensures StepSims(x, st', outer, MachOf(x, st, outer, c), ExecNum(op, c))
  {
    hide Flat, FrameWords, Agree, ChainsOk, SiteOk, StackOk, Live, EvalNum, Height, ChainOk, Chain, PushOperand;
    hide StepNum, Emit, Encode, NumParams, Replace, MachAt;
    StartsAt(x, |st.code|, c.locals, outer + c.stack, c.trace);
    var r := EvalNum(op, args);
    assert Top(c.stack, |args|) == args && c.stack[..|c.stack| - |args|] == rest;
    assert outer + c.stack == (outer + rest) + args;
    NumericStep(x, |st.code|, c.locals, outer + rest, args, c.trace, op, |st'.code|);
    if r.Some? {
      TypedPush(x, st1, st2, outer, c.(stack := rest), r.value);
      InlineSims(x, st, st2, st', Instr.Num(op), outer, c, rest, args, [r.value], goals, lo);
    } else {
      SameChains(st, st2, lo);
      Fetch(x, st2, st', Instr.Num(op), goals, lo, MachOf(x, st, outer, c));
    }
  }

  lemma TypedPop(x: Site, st: State, outer: seq<Value>, c: Config)
    requires Typed(x, st, outer, c) && |st.values| > |outer|
    ensures c.stack != [] && st.values[|st.values| - 1] == Known(Last(c).Type())
    ensures st.values[..|st.values| - 1] == Knowns(TypesOf(outer + Pop(c).stack))
    ensures c.stack == Pop(c).stack + [Last(c)]
  {
    var n := |c.stack| - 1;
    assert outer + c.stack == (outer + c.stack[..n]) + [c.stack[n]];
    TypesOfConcat(outer + c.stack[..n], [c.stack[n]]);
    KnownsConcat(TypesOf(outer + c.stack[..n]), TypesOf([c.stack[n]]));
  }

  lemma TypedShrink(x: Site, st: State, st': State, outer: seq<Value>, c: Config, c': Config)
    requires Typed(x, st, outer, c) && StackOk(st') && Live(st') && SameCode(st, st')
    requires st'.values == Knowns(TypesOf(outer + c'.stack)) && st'.highwater <= x.f.usage && c'.locals == c.locals
    ensures Typed(x, st', outer, c')
  {
  }

  lemma FlatNone()
    ensures Flat([]) == []
  {
  }

  lemma ConstantSims(x: Site, st: State, st': State, v: Value, outer: seq<Value>, c: Config, goals: seq<Goal>, lo: nat)
    requires SiteOk(x) && ChainsOk(st, lo) && Typed(x, st, outer, c)
    requires CompileConstant(ContextOf(x), st, v) == Result.Ok(st') && Agree(x.code, st', goals)
    requires st'.highwater <= x.f.usage
    ensures StepSims(x, st', outer, MachOf(x, st, outer, c), Normal(Push(c, v)))
  {
    hide Flat, FrameWords, Agree, ChainsOk, SiteOk, StackOk, Live, Height, ChainOk, Chain, PushOperand, Emit;
    hide ConstWords, Replace;
    var cx := ContextOf(x);
    var st1 := PushOperand(cx, st, Known(v.Type())).value;
    PushSame(cx, st, Known(v.Type()));
    EmitSame(cx, st1, ConstWords(v));
    TypedPush(x, st, st1, outer, c, v);
    FlatNone();
    FlatOne(v);
    assert c.stack == c.stack + [];
    InlineSims(x, st, st1, st', Instr.Const(v), outer, c, c.stack, [], [v], goals, lo);
  }

  lemma DropSims(x: Site, st: State, st': State, outer: seq<Value>, c: Config, goals: seq<Goal>, lo: nat)
    requires SiteOk(x) && ChainsOk(st, lo) && Typed(x, st, outer, c)
    requires CompileDrop(ContextOf(x), st) == Result.Ok(st') && Agree(x.code, st', goals)
    ensures c.stack != [] && StepSims(x, st', outer, MachOf(x, st, outer, c), Normal(Pop(c)))
  {
    hide Flat, FrameWords, Agree, ChainsOk, SiteOk, Height, ChainOk, Chain, Emit, Imm8, Replace;
    var cx := ContextOf(x);
    var (st1, o) := PopAny(st).value;
    PopAnyLive(st);
    PopExpectPops(st, Unknown);
    PoppedOk(st, st1);
    TypedPop(x, st, outer, c);
    TypedShrink(x, st, st1, outer, c, Pop(c));
    FlatNone();
    FlatOne(Last(c));
    assert Emit(cx, st1, Encode(Instr.Drop(o.ty))) == Result.Ok(st');
    assert Pop(c).stack + [] == Pop(c).stack;
    InlineSims(x, st, st1, st', Instr.Drop(o.ty), outer, c, Pop(c).stack, [Last(c)], [], goals, lo);
  }

  // ----- locals -----

  lemma ParamSplit(x: Site, locals: seq<Value>, k: nat, v: Value) returns (a: seq<U32>, b: seq<U32>)
    requires LocalsOk(x, locals) && k < |x.f.sig.params| && v.Type() == locals[k].Type()
    ensures LocalsOk(x, locals[k := v])
    ensures FrameWords(x, locals) == a + ToWords(locals[k]) + b
    ensures FrameWords(x, locals[k := v]) == a + ToWords(v) + b
    ensures |a| == |x.below| + WordLen(x.f.sig.params[..k])
  {
    hide Flat, ToWords, WordLen;
    var np := |x.f.sig.params|;
    var (ps, ls) := (locals[..np], locals[np..]);
    assert TypesOf(ps) == x.f.sig.params;
    assert locals[k := v][..np] == ps[k := v] && locals[k := v][np..] == ls;
    FlatParts(locals, k, v);
    FlatParts(ps, k, v);
    a, b := x.below + Flat(ps[..k]), Flat(ps[k + 1..]) + [x.header, x.back] + Flat(ls);
    Regroup(x.below, Flat(ps[..k]), ToWords(ps[k]), Flat(ps[k + 1..]), [x.header, x.back], Flat(ls));
    Regroup(x.below, Flat(ps[..k]), ToWords(v), Flat(ps[k + 1..]), [x.header, x.back], Flat(ls));
  }

  lemma Regroup(z: seq<U32>, p: seq<U32>, u: seq<U32>, q: seq<U32>, h: seq<U32>, l: seq<U32>)
    ensures z + (p + u + q) + h + l == z + p + u + (q + h + l)
  {
  }

  lemma DeclaredSplit(x: Site, locals: seq<Value>, k: nat, v: Value) returns (a: seq<U32>, b: seq<U32>)
    requires LocalsOk(x, locals) && |x.f.sig.params| <= k < |locals| && v.Type() == locals[k].Type()
    ensures LocalsOk(x, locals[k := v])
    ensures FrameWords(x, locals) == a + ToWords(locals[k]) + b
    ensures FrameWords(x, locals[k := v]) == a + ToWords(v) + b
    ensures |a| == x.Fp() + 2 + WordLen(GroupTypes(x.f.groups)[..k - |x.f.sig.params|])
  {
    hide Flat, ToWords, WordLen;
    var np := |x.f.sig.params|;
    var j := k - np;
    var (ps, ls) := (locals[..np], locals[np..]);
    assert TypesOf(ls) == GroupTypes(x.f.groups);
    assert locals[k := v][..np] == ps && locals[k := v][np..] == ls[j := v];
    FlatParts(locals, k, v);
    FlatParts(ls, j, v);
    FrameLength(x, locals);
    var head := x.below + Flat(ps) + [x.header, x.back];
    a, b := head + Flat(ls[..j]), Flat(ls[j + 1..]);
    Regroup(head, Flat(ls[..j]), ToWords(ls[j]), b, [], []);
    Regroup(head, Flat(ls[..j]), ToWords(v), b, [], []);
  }

  /** A local's words lie where the compiler's offset says, within the bounds of parameters and
      declared locals; storing there changes that local only. */
  lemma LocalAt(x: Site, locals: seq<Value>, k: nat, v: Value)
    requires LocalsOk(x, locals) && k < |locals| && v.Type() == locals[k].Type()
    ensures k < |x.Types()| && locals[k].Type() == x.Types()[k] && LocalsOk(x, locals[k := v])
    ensures var o := FrameOffset(x.f.sig, x.f.groups, k);
            var w := Width(v.Type());
            && LocalIn(x.Call(), o, w)
            && 0 <= x.Fp() + o && x.Fp() + o + w <= |FrameWords(x, locals)|
            && FrameWords(x, locals)[x.Fp() + o..x.Fp() + o + w] == ToWords(locals[k])
            && SetWords(FrameWords(x, locals), x.Fp() + o, ToWords(v)) == FrameWords(x, locals[k := v])
  {
    hide FrameWords, ToWords, WordLen, SetWords;
    assert x.Types()[k] == TypesOf(locals)[k] == locals[k].Type();
    LayoutRange(x.f.sig, x.f.groups, k);
    var a, b;
    if k < |x.f.sig.params| {
      a, b := ParamSplit(x, locals, k, v);
    } else {
      a, b := DeclaredSplit(x, locals, k, v);
    }
    assert |a| == x.Fp() + FrameOffset(x.f.sig, x.f.groups, k);
    Splice(a, ToWords(locals[k]), b, ToWords(v));
  }

  lemma Splice(a: seq<U32>, u: seq<U32>, b: seq<U32>, v: seq<U32>)
    requires |u| == |v|
    ensures (a + u + b)[|a|..|a| + |v|] == u
    ensures SetWords(a + u + b, |a|, v) == a + v + b
  {
  }

  /** The local a compiled access refers to. */
  lemma LocalFound(x: Site, k: nat, locals: seq<Value>)
    requires SiteOk(x) && GetLocal(ContextOf(x), k).Ok? && LocalsOk(x, locals)
    ensures k < |locals| == |x.Types()|
    ensures GetLocal(ContextOf(x), k).value.offset == FrameOffset(x.f.sig, x.f.groups, k)
    ensures GetLocal(ContextOf(x), k).value.ty == locals[k].Type()
  {
    GetLocalExact(ContextOf(x), k);
    assert |locals| == |TypesOf(locals)|;
    assert TypesOf(locals)[k] == locals[k].Type();
  }

  /** The frame words read through the machine. */
  lemma LocalRead(x: Site, pc: int, locals: seq<Value>, operands: seq<Value>, trace: seq<HostCall>, k: nat, v: Value)
    requires LocalsOk(x, locals) && k < |locals| && v.Type() == locals[k].Type()
    ensures k < |x.Types()|
    ensures var o := FrameOffset(x.f.sig, x.f.groups, k);
            var w := Width(v.Type());
            var m := MachAt(x, pc, locals, operands, trace);
            && CanAccess(m, o, w)
            && m.live[m.fp + o..m.fp + o + w] == ToWords(locals[k])
            && LocalsOk(x, locals[k := v])
            && m.(live := SetWords(m.live, m.fp + o, ToWords(v))) == MachAt(x, pc, locals[k := v], operands, trace)
  {
    hide FrameWords, ToWords, WordLen, Flat, LocalIn, FrameOffset, SetWords, LocalTypes;
    LocalAt(x, locals, k, v);
    MachCalls(x, pc, locals, operands, trace);
    var a := x.Fp() + FrameOffset(x.f.sig, x.f.groups, k);
    SetFront(FrameWords(x, locals), Flat(operands), a, ToWords(v));
  }

  lemma SetFront(front: seq<U32>, back: seq<U32>, a: nat, ws: seq<U32>)
    requires a + |ws| <= |front|
    ensures SetWords(front + back, a, ws) == SetWords(front, a, ws) + back
    ensures (front + back)[a..a + |ws|] == front[a..a + |ws|]
  {
  }

  lemma LocalGetSims(x: Site, st: State, st': State, k: nat, outer: seq<Value>, c: Config, goals: seq<Goal>, lo: nat)
    requires SiteOk(x) && ChainsOk(st, lo) && Typed(x, st, outer, c)
    requires CompileLocalGet(ContextOf(x), st, k) == Result.Ok(st') && Agree(x.code, st', goals)
    requires st'.highwater <= x.f.usage
    ensures StepSims(x, st', outer, MachOf(x, st, outer, c), ExecOp(Op.LocalGet(k), c))
  {
    hide Flat, FrameWords, Agree, ChainsOk, SiteOk, StackOk, Live, Height, ChainOk, Chain, PushOperand, Emit;
    hide Encode, Replace;
    hide GetLocal, FrameOffset, CanAccess;
    var cx := ContextOf(x);
    LocalFound(x, k, c.locals);
    var lv := GetLocal(cx, k).value;
    var v := c.locals[k];
    var st1 := PushOperand(cx, st, Known(lv.ty)).value;
    PushSame(cx, st, Known(lv.ty));
    var i := Instr.LocalGet(lv.ty, lv.offset);
    assert Emit(cx, st1, Encode(i)) == Result.Ok(st');
    EmitSame(cx, st1, Encode(i));
    TypedPush(x, st, st1, outer, c, v);
    LocalRead(x, |st.code|, c.locals, outer + c.stack, c.trace, k, v);
    FlatNone();
    FlatOne(v);
    assert c.stack == c.stack + [];
    InlineSims(x, st, st1, st', i, outer, c, c.stack, [], [v], goals, lo);
  }

  /** `local.tee` on the machine. */
  lemma TeeStep(
    x: Site, pc: int, locals: seq<Value>, keep: seq<Value>, v: Value, trace: seq<HostCall>, k: nat, next: int)
    requires LocalsOk(x, locals) && k < |locals| && v.Type() == locals[k].Type()
    ensures k < |x.Types()| && LocalsOk(x, locals[k := v])
    ensures StepLocalTee(v.Type(), FrameOffset(x.f.sig, x.f.groups, k), MachAt(x, pc, locals, keep + [v], trace), next)
         == Next(MachAt(x, next, locals[k := v], keep + [v], trace))
  {
    hide Flat, FrameWords, FrameOffset, CanAccess, CanPop, SetWords, ToWords;
    LocalRead(x, pc, locals, keep + [v], trace, k, v);
    TopWords(x, pc, locals, keep, [v], trace);
    FlatOne(v);
  }

  lemma TypedTee(x: Site, st: State, outer: seq<Value>, c: Config, locals: seq<Value>)
    requires Typed(x, st, outer, c) && LocalsOk(x, locals)
    ensures Typed(x, st, outer, c.(locals := locals))
  {
  }

  lemma LocalTeeSims(x: Site, st: State, st': State, k: nat, outer: seq<Value>, c: Config, goals: seq<Goal>, lo: nat)
    requires SiteOk(x) && ChainsOk(st, lo) && Typed(x, st, outer, c)
    requires CompileLocalTee(ContextOf(x), st, k) == Result.Ok(st') && Agree(x.code, st', goals)
    requires st'.highwater <= x.f.usage
    ensures StepSims(x, st', outer, MachOf(x, st, outer, c), ExecOp(Op.LocalTee(k), c))
  {
    hide Flat, FrameWords, Agree, ChainsOk, SiteOk, Height, ChainOk, Chain, Emit, Encode, Replace;
    hide GetLocal, FrameOffset, CanAccess, StepLocalTee, PopType, PushOperand, StackOk, Live;
    var cx := ContextOf(x);
    LocalFound(x, k, c.locals);
    var lv := GetLocal(cx, k).value;
    var st1 := PopType(st, lv.ty).value;
    PopTypeLive(st, lv.ty);
    TypedPop(x, st, outer, c);
    var (rest, v) := (Pop(c).stack, Last(c));
    var st2 := PushOperand(cx, st1, Known(lv.ty)).value;
    PushSame(cx, st1, Known(lv.ty));
    var i := Instr.LocalTee(lv.ty, lv.offset);
    assert Emit(cx, st2, Encode(i)) == Result.Ok(st');
    EmitSame(cx, st2, Encode(i));
    TypedPush(x, st1, st2, outer, Pop(c), v);
    assert Push(Pop(c), v) == c;
    SameChains(st, st2, lo);
    Fetch(x, st2, st', i, goals, lo, MachOf(x, st, outer, c));
    EmittedTyped(x, st2, st', outer, c);
    assert outer + c.stack == (outer + rest) + [v];
    TeeStep(x, |st.code|, c.locals, outer + rest, v, c.trace, k, |st'.code|);
    TypedTee(x, st', outer, c, c.locals[k := v]);
  }

  lemma LocalSetSims(x: Site, st: State, st': State, k: nat, outer: seq<Value>, c: Config, goals: seq<Goal>, lo: nat)
    requires SiteOk(x) && ChainsOk(st, lo) && Typed(x, st, outer, c)
    requires CompileLocalSet(ContextOf(x), st, k) == Result.Ok(st') && Agree(x.code, st', goals)
    ensures StepSims(x, st', outer, MachOf(x, st, outer, c), ExecOp(Op.LocalSet(k), c))
  {
    hide Flat, FrameWords, Agree, ChainsOk, SiteOk, Height, ChainOk, Chain, Emit, Encode;
    hide GetLocal, FrameOffset, CanAccess, StepLocalTee, PopExpect, Replace, Typed, MachAt, ContextOf;
    var cx := ContextOf(x);
    LocalsTyped(x, st, outer, c);
    StartsAt(x, |st.code|, c.locals, outer + c.stack, c.trace);
    LocalFound(x, k, c.locals);
    var lv := GetLocal(cx, k).value;
    var st1 := PopType(st, lv.ty).value;
    PopExpected(x, st, outer, c, Known(lv.ty));
    var (rest, v) := (Pop(c).stack, Last(c));
    var i := Instr.LocalSet(lv.ty, lv.offset);
    assert Emit(cx, st1, Encode(i)) == Result.Ok(st');
    EmitSame(cx, st1, Encode(i));
    SameChains(st, st1, lo);
    Fetch(x, st1, st', i, goals, lo, MachOf(x, st, outer, c));
    assert outer + c.stack == (outer + rest) + [v];
    TeeStep(x, |st.code|, c.locals, outer + rest, v, c.trace, k, |st'.code|);
    var locals := c.locals[k := v];
    EmittedTyped(x, st1, st', outer, Pop(c));
    TypedTee(x, st', outer, Pop(c), locals);
    DropTop(x, st', outer, Pop(c).(locals := locals), v);
  }

  lemma LocalsTyped(x: Site, st: State, outer: seq<Value>, c: Config)
    requires Typed(x, st, outer, c)
    ensures LocalsOk(x, c.locals)
  {
  }

  /** Leaving the topmost operand off. */
  lemma DropTop(x: Site, st': State, outer: seq<Value>, c: Config, v: Value)
    requires Typed(x, st', outer, c)
    ensures CanPop(MachAt(x, |st'.code|, c.locals, (outer + c.stack) + [v], c.trace), Width(v.Type()))
    ensures Replace(MachAt(x, |st'.code|, c.locals, (outer + c.stack) + [v], c.trace), Width(v.Type()), [], |st'.code|)
         == Next(MachOf(x, st', outer, c))
  {
    hide FrameWords, Flat, Replace;
    TypedFits(x, st', outer, c);
    FlatNone();
    FlatOne(v);
    assert outer + c.stack + [] == outer + c.stack;
    ReplaceAt(x, |st'.code|, c.locals, outer + c.stack, [v], [], c.trace, Width(v.Type()), [], |st'.code|);
  }

  // ----- select -----

  lemma LastWord(x: Site, pc: int, locals: seq<Value>, keep: seq<Value>, v: Value, trace: seq<HostCall>)
    requires LocalsOk(x, locals) && v.I32?
    ensures var m := MachAt(x, pc, locals, keep + [v], trace);
            && CanPop(m, 1) && m.live[|m.live| - 1] == v.word
            && m.(live := Below(m, 1)) == MachAt(x, pc, locals, keep, trace)
  {
    hide FrameWords;
    FlatOne(v);
    TopWords(x, pc, locals, keep, [v], trace);
    var m := MachAt(x, pc, locals, keep + [v], trace);
    assert m.live[|m.live| - 1] == m.live[|m.live| - 1..][0];
  }

  lemma FlatThree(v1: Value, v2: Value, b: Value)
    ensures Flat([v1, v2, b]) == ToWords(v1) + ToWords(v2) + ToWords(b)
  {
    hide Flat;
    FlatTwo(v1, v2);
    FlatPush([v1, v2], b);
    assert [v1, v2] + [b] == [v1, v2, b];
  }

  lemma SelectWords(t: ValType, m: Mach, front: seq<U32>, u: seq<U32>, v: seq<U32>, b: U32, next: int)
    requires m.live == front + (u + v + [b]) && |u| == |v| == Width(t) && CanPop(m, 2 * Width(t) + 1)
    ensures StepSelect(t, m, next) ==
            if b != 0 then Replace(m, Width(t) + 1, [], next) else Replace(m, 2 * Width(t) + 1, v, next)
  {
    hide Replace, CanPop, Width;
    var n := |m.live|;
    assert m.live[n - 1] == b;
    assert m.live[n - 1 - |v|..n - 1] == v;
  }

  /** The handler of `select`, for values `v1`, `v2` of the same type under the condition `b`. */
  lemma SelectStep(
    x: Site, pc: int, locals: seq<Value>, keep: seq<Value>, v1: Value, v2: Value, b: Value,
    trace: seq<HostCall>, next: int)
    requires LocalsOk(x, locals) && v1.Type() == v2.Type() && b.I32?
    ensures var m := MachAt(x, pc, locals, keep + [v1, v2, b], trace);
            StepSelect(v1.Type(), m, next) ==
            if b.word != 0 then Replace(m, |Flat([v2, b])|, Flat([]), next)
            else Replace(m, |Flat([v1, v2, b])|, Flat([v2]), next)
  {
    var m := MachAt(x, pc, locals, keep + [v1, v2, b], trace);
    hide FrameWords, Replace, ToWords, Flat, MachAt, CanPop, StepSelect, Below, Width;
    SelectFlat(v1, v2, b);
    TopWords(x, pc, locals, keep, [v1, v2, b], trace);
    SplitTop(m.live, Flat([v1, v2, b]));
    SelectWords(v1.Type(), m, m.live[..|m.live| - |Flat([v1, v2, b])|], ToWords(v1), ToWords(v2), b.word, next);
  }

  /** The words of the operands of `select`. */
  lemma SelectFlat(v1: Value, v2: Value, b: Value)
    requires v1.Type() == v2.Type() && b.I32?
    ensures |ToWords(v1)| == |ToWords(v2)| == Width(v1.Type())
    ensures Flat([]) == [] && Flat([v2]) == ToWords(v2)
    ensures |Flat([v2, b])| == Width(v1.Type()) + 1 && |Flat([v1, v2, b])| == 2 * Width(v1.Type()) + 1
    ensures Flat([v1, v2, b]) == ToWords(v1) + ToWords(v2) + [b.word]
  {
    FlatNone();
    FlatOne(v2);
    FlatTwo(v2, b);
    FlatThree(v1, v2, b);
    hide Flat;
  }

  lemma SplitTop(live: seq<U32>, top: seq<U32>)
    requires |top| <= |live| && live[|live| - |top|..] == top
    ensures live == live[..|live| - |top|] + top
  {
  }

  lemma TypeI32(v: Value)
    requires v.Type() == ValType.I32
    ensures v.I32?
  {
  }

  lemma SelectSims(x: Site, st: State, st': State, outer: seq<Value>, c: Config, goals: seq<Goal>, lo: nat)
    requires SiteOk(x) && ChainsOk(st, lo) && Typed(x, st, outer, c)
    requires CompileSelect(ContextOf(x), st) == Result.Ok(st') && Agree(x.code, st', goals)
    requires st'.highwater <= x.f.usage
    ensures StepSims(x, st', outer, MachOf(x, st, outer, c), ExecSelect(c))
  {
    hide Flat, FrameWords, Agree, ChainsOk, SiteOk, Height, ChainOk, Chain, Emit, PushOperand, PopAny, PopExpect;
    hide Imm8, TypeTag, Typed, StepSims, ExecSelect, MachAt;
    PopExpected(x, st, outer, c, Known(ValType.I32));
    var (st1, c1) := (PopType(st, ValType.I32).value, Pop(c));
    TypeI32(Last(c));
    PopOne(x, st1, outer, c1);
    var (st2, t1) := PopAny(st1).value;
    var c2 := Pop(c1);
    PopExpected(x, st2, outer, c2, t1);
    SelectEnd(x, st, PopExpect(st2, t1).value.0, st', outer, c, Pop(c2).stack, Last(c2), Last(c1), Last(c), goals, lo);
  }

  /** An operand popped in live code is the topmost one, with its type. */
  lemma PopOne(x: Site, st: State, outer: seq<Value>, c: Config)
    requires Typed(x, st, outer, c) && PopAny(st).Ok?
    ensures c.stack != [] && c.stack == Pop(c).stack + [Last(c)]
    ensures PopAny(st).value.1 == Known(Last(c).Type())
    ensures Typed(x, PopAny(st).value.0, outer, Pop(c)) && SameCode(st, PopAny(st).value.0)
  {
    hide Height, PopAny, FrameWords;
    PopAnyLive(st);
    TypedPop(x, st, outer, c);
    PopAnyTyped(st);
    TypedShrink(x, st, PopAny(st).value.0, outer, c, Pop(c));
  }

  lemma PopAnyTyped(st: State)
    requires StackOk(st) && Live(st) && PopAny(st).Ok?
    ensures StackOk(PopAny(st).value.0) && Live(PopAny(st).value.0)
  {
    PopAnyLive(st);
    PopExpectPops(st, Unknown);
    PoppedOk(st, PopAny(st).value.0);
  }

  lemma PopExpected(x: Site, st: State, outer: seq<Value>, c: Config, want: Operand)
    requires Typed(x, st, outer, c) && PopExpect(st, want).Ok?
    ensures c.stack != [] && c.stack == Pop(c).stack + [Last(c)] && (want.Known? ==> want.ty == Last(c).Type())
    ensures PopExpect(st, want).value.1 == Known(Last(c).Type())
    ensures Typed(x, PopExpect(st, want).value.0, outer, Pop(c)) && SameCode(st, PopExpect(st, want).value.0)
  {
    hide PopAny, Typed;
    PopOne(x, st, outer, c);
  }

  lemma SelectEnd(
    x: Site, st: State, st3: State, st': State, outer: seq<Value>, c: Config,
    rest: seq<Value>, v1: Value, v2: Value, b: Value, goals: seq<Goal>, lo: nat)
    requires SiteOk(x) && ChainsOk(st, lo) && Typed(x, st, outer, c) && SameCode(st, st3)
    requires Typed(x, st3, outer, c.(stack := rest)) && c.stack == rest + [v1] + [v2] + [b]
    requires b.I32? && v1.Type() == v2.Type()
    requires PushOperand(ContextOf(x), st3, Known(v1.Type())).Ok?
    requires var st4 := PushOperand(ContextOf(x), st3, Known(v1.Type())).value;
             Emit(ContextOf(x), st4, Encode(Instr.Select(v1.Type()))) == Result.Ok(st')
    requires Agree(x.code, st', goals) && st'.highwater <= x.f.usage
    ensures StepSims(x, st', outer, MachOf(x, st, outer, c), ExecSelect(c))
  {
    hide Flat, FrameWords, Agree, ChainsOk, SiteOk, Height, ChainOk, Chain, Emit, PushOperand, StackOk, Live;
    hide Encode, Replace;
    hide StepSelect;
    var cx := ContextOf(x);
    var t := v1.Type();
    var st4 := PushOperand(cx, st3, Known(t)).value;
    PushSame(cx, st3, Known(t));
    EmitSame(cx, st4, Encode(Instr.Select(t)));
    assert outer + c.stack == (outer + rest) + [v1, v2, b];
    SelectStep(x, |st.code|, c.locals, outer + rest, v1, v2, b, c.trace, |st'.code|);
    var c0 := c.(stack := rest);
    if b.word != 0 {
      TypedPush(x, st3, st4, outer, c0, v1);
      assert c.stack == (rest + [v1]) + [v2, b] && (rest + [v1]) + [] == rest + [v1];
      InlineSims(x, st, st4, st', Instr.Select(t), outer, c, rest + [v1], [v2, b], [], goals, lo);
    } else {
      TypedPush(x, st3, st4, outer, c0, v2);
      assert c.stack == rest + [v1, v2, b];
      InlineSims(x, st, st4, st', Instr.Select(t), outer, c, rest, [v1, v2, b], [v2], goals, lo);
    }
    assert c.stack[..|c.stack| - 3] == rest;
  }

  // ----- branches -----

  /** The operands a branch or return carries are there, with the label's types. */
  predicate Carries(c: Config, r: ResultType) {
    ResultCount(r) <= |c.stack| && TypesOf(Top(c.stack, ResultCount(r))) == ResultTypes(r)
  }

  predicate BranchReady(x: Site, st: State, outer: seq<Value>, l: nat, c: Config) {
    && l < |st.frames| && LocalsOk(x, c.locals)
    && Carries(c, LabelType(ContextOf(x), st, |st.frames| - 1 - l))
    && st.frames[|st.frames| - 1 - l].height <= |outer|
  }

  function BranchTarget(st: State, goals: seq<Goal>, idx: nat): int
    requires idx < |st.frames| == |goals|
  {
    if st.frames[idx].kind.Loop? then st.frames[idx].target else goals[idx].branch
  }

  /** Taking a branch: the operands above the label's frame are dropped, except those it carries;
      the function's own label returns. */
  function BranchStep(x: Site, st: State, goals: seq<Goal>, outer: seq<Value>, l: nat, c: Config): Step
    requires BranchReady(x, st, outer, l, c) && |goals| == |st.frames| && HeaderLength(x.header) <= x.Fp()
  {
    var idx := |st.frames| - 1 - l;
    var carried := Top(c.stack, ResultCount(LabelType(ContextOf(x), st, idx)));
    if idx == 0 then ReturnStep(x, Flat(carried), c.trace)
    else
      Next(MachAt(x, BranchTarget(st, goals, idx), c.locals, outer[..st.frames[idx].height] + carried, c.trace))
  }

  /** What the compiler measured above a frame is what lies above it. */
  lemma AboveWords(x: Site, st: State, outer: seq<Value>, c: Config, idx: nat)
    requires Typed(x, st, outer, c) && idx < |st.frames|
    ensures var h := st.frames[idx].height;
            && h <= |outer|
            && Above(st, st.frames[idx]) == |Flat(outer[h..] + c.stack)|
  {
    var h := st.frames[idx].height;
    assert h <= Innermost(st).height;
    var (keep, drop) := (outer[..h], outer[h..] + c.stack);
    assert outer + c.stack == keep + drop;
    TypesOfConcat(keep, drop);
    assert st.values[..h] == Knowns(TypesOf(keep)) by {
      KnownsConcat(TypesOf(keep), TypesOf(drop));
    }
    assert Truncate(st.values, h) == st.values[..h];
    HeightKnowns(TypesOf(outer + c.stack));
    HeightKnowns(TypesOf(keep));
    WordLenConcat(TypesOf(keep), TypesOf(drop));
    FlatLen(drop);
  }

  lemma CarriedTop(x: Site, st: State, outer: seq<Value>, c: Config, r: ResultType)
    requires Typed(x, st, outer, c) && PopResult(st, r).Ok?
    ensures Carries(c, r)
  {
    PopResultLive(st, r);
    assert OperandsOf(r) == Knowns(ResultTypes(r));
    TypedTop(x, st, outer, c, ResultTypes(r));
  }

  lemma BranchReturns(
    x: Site, st: State, outer: seq<Value>, c: Config, l: nat, goals: seq<Goal>, pc: int, offset: nat, slot: U32)
    requires SiteOk(x) && l + 1 == |st.frames| == |goals| && BranchReady(x, st, outer, l, c)
    requires Label.Arity(slot) == ResultWords(x.f.sig.result) && Jump(slot) == 0
    ensures StepBranch(x.s, MachAt(x, pc, c.locals, outer + c.stack, c.trace), offset, slot)
         == BranchStep(x, st, goals, outer, l, c)
  {
    hide Flat, FrameWords, Jump, Depth, Label.Arity, StepReturn, ReturnStep;
    var n := ResultCount(x.f.sig.result);
    var carried := Top(c.stack, n);
    ResultLen(x.f.sig.result, carried);
    assert outer + c.stack == (outer + c.stack[..|c.stack| - n]) + carried;
    ReturnAt(x, pc, c.locals, outer + c.stack[..|c.stack| - n], carried, c.trace);
  }

  lemma JumpStep(s: Store, m: Mach, offset: nat, slot: U32, arity: nat, depth: nat, target: int)
    requires Label.Arity(slot) == arity <= 2 && Depth(slot) == depth
    requires Jump(slot) != 0 && Jump(slot) == target - (m.pc + offset)
    requires CanPop(m, depth) && CanPop(m, arity)
    ensures arity <= |m.live| && StepBranch(s, m, offset, slot) == Replace(m, depth, m.live[|m.live| - arity..], target)
  {
    hide Replace, Jump, Depth, Label.Arity;
  }

  lemma BranchJumps(
    x: Site, st: State, outer: seq<Value>, c: Config, l: nat, goals: seq<Goal>, pc: int, offset: nat, slot: U32)
    requires SiteOk(x) && Typed(x, st, outer, c) && l + 1 < |st.frames| == |goals| && BranchReady(x, st, outer, l, c)
    requires var idx := |st.frames| - 1 - l;
             && Label.Arity(slot) == ResultWords(LabelType(ContextOf(x), st, idx))
             && Depth(slot) == Above(st, st.frames[idx]) && Jump(slot) != 0
             && Jump(slot) == BranchTarget(st, goals, idx) - (pc + offset)
    ensures StepBranch(x.s, MachAt(x, pc, c.locals, outer + c.stack, c.trace), offset, slot)
         == BranchStep(x, st, goals, outer, l, c)
  {
    hide Flat, FrameWords, Jump, Depth, Label.Arity, StackOk, Live, Above, Typed, SiteOk, CanPop, Replace, StepBranch;
    hide LabelType, BranchTarget;
    var idx := |st.frames| - 1 - l;
    var r := LabelType(ContextOf(x), st, idx);
    AboveWords(x, st, outer, c, idx);
    var carried := Top(c.stack, ResultCount(r));
    ResultLen(r, carried);
    var (keep, target) := (c.stack[..|c.stack| - ResultCount(r)], BranchTarget(st, goals, idx));
    assert outer + c.stack == (outer + keep) + carried;
    var depth := |Flat(outer[st.frames[idx].height..] + c.stack)|;
    BranchInner(x, st, outer, c, idx, ResultCount(r), pc, depth, target);
    TopWords(x, pc, c.locals, outer + keep, carried, c.trace);
    JumpStep(x.s, MachAt(x, pc, c.locals, outer + c.stack, c.trace), offset, slot, |Flat(carried)|, depth, target);
  }

  /** A taken branch through a slot the compiler wrote. */
  lemma BranchSim(
    x: Site, st: State, outer: seq<Value>, c: Config, l: nat, goals: seq<Goal>, pc: int, offset: nat, slot: U32)
    requires SiteOk(x) && Typed(x, st, outer, c) && l < |st.frames| == |goals|
    requires SlotFor(ContextOf(x), st, l, goals, pc + offset, slot)
    requires PopResult(st, LabelType(ContextOf(x), st, |st.frames| - 1 - l)).Ok?
    ensures BranchReady(x, st, outer, l, c)
    ensures StepBranch(x.s, MachAt(x, pc, c.locals, outer + c.stack, c.trace), offset, slot)
         == BranchStep(x, st, goals, outer, l, c)
  {
    hide StepBranch, BranchStep, MachAt, SiteOk, Depth, Jump, Label.Arity, Above, Carries, PopResult;
    var idx := |st.frames| - 1 - l;
    CarriedTop(x, st, outer, c, LabelType(ContextOf(x), st, idx));
    assert st.frames[idx].height <= Innermost(st).height;
    if idx == 0 {
      BranchReturns(x, st, outer, c, l, goals, pc, offset, slot);
    } else {
      BranchJumps(x, st, outer, c, l, goals, pc, offset, slot);
    }
  }

  lemma BranchInner(
    x: Site, st: State, outer: seq<Value>, c: Config, idx: nat, n: nat, pc: int, depth: nat, target: int)
    requires Typed(x, st, outer, c) && idx < |st.frames| && n <= |c.stack| && st.frames[idx].height <= |outer|
    requires depth == |Flat(outer[st.frames[idx].height..] + c.stack)|
    ensures var m := MachAt(x, pc, c.locals, outer + c.stack, c.trace);
            && CanPop(m, depth)
            && Replace(m, depth, Flat(Top(c.stack, n)), target)
               == Next(MachAt(x, target, c.locals, outer[..st.frames[idx].height] + Top(c.stack, n), c.trace))
  {
    hide Flat, FrameWords, StackOk, Live, Replace, CanPop;
    var h := st.frames[idx].height;
    var (keep, drop, top) := (outer[..h], outer[h..] + c.stack, Top(c.stack, n));
    var middle := outer[h..] + c.stack[..|c.stack| - n];
    TypedFits(x, st, outer, c);
    assert outer + c.stack == keep + drop == keep + (middle + top);
    FlatConcat(keep, middle + top);
    FlatConcat(middle, top);
    FlatConcat(keep, top);
    ReplaceAt(x, pc, c.locals, keep, drop, top, c.trace, depth, Flat(top), target);
  }
}
