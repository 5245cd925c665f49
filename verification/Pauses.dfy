/** Running a paused engine on without a resumption (src/interpreter.rs, `run` and `resume`). `run` does
    not look at the host result that is owed. Where the paused host function declares no result that is
    harmless; where it declares one, the missing words leave the stack pointer below the height the
    compiler counted. */
module Pauses {
  import opened Values
  import opened Label
  import opened Ir
  import opened Wasm
  import opened Text
  import opened Machine
  import opened Preservation
  import opened Runs
  import opened Calls
  import opened Safety
  import opened Heights

  /** A pause in the middle of an invocation: `m` is a state of its run, and running on from there
      pauses within `n` instructions. */
  ghost predicate PausesAt(
    s: Store, code: seq<Word>, options: Options, module_: nat, index: nat, args: seq<Value>, a: nat, m: Mach, n: nat)
  {
    && Invocable(s, code, options, module_, index, args) && Invoke(s, module_, index, args).Next?
    && Run(s, code, Invoke(s, module_, index, args).m, a) == Next(m)
    && RunToPause(s, code, m, n).Paused?
  }

  /** What a caller can look at before running on: a paused engine is in a state of the specified run
      exactly when the host function it waits for declares no result. Then the resumption would change
      nothing, and running on, for as long as may be, is the specified run and never unsafe. */
  lemma RunOn(
    s: Store, code: seq<Word>, options: Options, module_: nat, index: nat, args: seq<Value>, a: nat, m: Mach, n: nat)
    requires PausesAt(s, code, options, module_, index, args, a, m, n)
    ensures var p := RunToPause(s, code, m, n);
            && s.reply(p.m.trace).Pause?
            && (Reachable(s, code, options, p.m) <==> p.want == None)
            && (p.want == None ==> Resume(p.m, p.want, s.reply(p.m.trace).result) == Next(p.m))
            && (p.want == None ==> forall k :: !RunToPause(s, code, p.m, k).Unsafe?)
  {
    hide Invocable, Invoke, Run, RunToPause, Reachable, Resume;
    var p := RunToPause(s, code, m, n);
    PortionsSafe(s, code, options, module_, index, args, a, m, n);
    var v := s.reply(p.m.trace).result;
    var r := Resume(p.m, p.want, v);
    var b :| b > a && Run(s, code, Invoke(s, module_, index, args).m, b) == r;
    IsReachable(s, code, options, module_, index, args, b, r.m);
    Resumed(p.m, p.want, v);
    if p.want == None {
      forall k: nat ensures !RunToPause(s, code, p.m, k).Unsafe? {
        PortionsSafe(s, code, options, module_, index, args, b, p.m, k);
      }
    } else if Reachable(s, code, options, p.m) {
      AddressDetermines(s, code, options, p.m, r.m);
    }
  }

  lemma IsReachable(
    s: Store, code: seq<Word>, options: Options, module_: nat, index: nat, args: seq<Value>, n: nat, m: Mach)
    requires Invocable(s, code, options, module_, index, args) && Invoke(s, module_, index, args).Next?
    requires Run(s, code, Invoke(s, module_, index, args).m, n) == Next(m)
    ensures Reachable(s, code, options, m)
  {
    hide Invocable, Invoke, Run;
  }

  /** A resumption puts the words of the declared result on the stack and changes nothing else. */
  lemma Resumed(m: Mach, want: ResultType, v: Option<Value>)
    requires Resume(m, want, v).Next?
    ensures var r := Resume(m, want, v).m;
            && r.pc == m.pc && r.fp == m.fp && |r.live| == |m.live| + ResultWords(want)
            && (want == None ==> r == m)
  {
    assert m.live[..|m.live|] + [] == m.live;
  }

  // ----- a module that goes wrong -----

  /** `call 0; drop`, where function 0 is a host function with an i32 result. */
  function DropBody(): Code { Plain(Op.Call(0), Plain(Op.Drop, Done)) }

  function AnswerSig(): FuncSig { FuncSig([], Some(ValType.I32)) }

  function DropIndex(): seq<FuncEntry> { [FuncEntry(FuncRef.Host(0, 0), AnswerSig())] }

  function DropOptions(): Options { Options(None, 1, 1, 1) }

  function DropFunc(): Func { Func(FuncSig([], None), [], DropBody(), 0, 1) }

  /** The host pauses whenever it is called. */
  function DropStore(): Store {
    Store([Module([DropFunc()], DropIndex())], [[AnswerSig()]],
          (t: seq<HostCall>) => HostReply.Pause(Some(Value.I32(7))), 3)
  }

  function DropCode(): seq<Word> {
    [Imm8(CALL_HOST, 0), 0, Imm8(DROP, TypeTag(ValType.I32)), Imm8(RETURN, 0)]
  }

  /** The compiler accepts that body. */
  lemma DropCompiles()
    ensures CompileFunc(Context(FuncSig([], None), [], DropIndex(), DropOptions()), [], DropBody())
         == Result.Ok(Compiled(DropCode(), 1))
  {
    var c := Context(FuncSig([], None), [], DropIndex(), DropOptions());
    var st0 := Start(c, []);
    var call := Encode(Instr.CallHost(0, 0));
    var st1 := State(call, st0.frames, [Known(ValType.I32)], 1, None);
    assert Height([Known(ValType.I32)]) == 1;
    assert st0.values + [Known(ValType.I32)] == [Known(ValType.I32)];
    assert PopTypes(st0, []) == Result.Ok(st0);
    assert PushResult(c, st0, Some(ValType.I32)) == Result.Ok(State([], st0.frames, [Known(ValType.I32)], 1, None));
    assert [] + call == call;
    assert CompileOp(c, st0, Op.Call(0)) == Result.Ok(st1);
    var st2 := State(DropCode()[..3], st0.frames, [], 1, None);
    assert call + [Imm8(DROP, TypeTag(ValType.I32))] == DropCode()[..3];
    assert CompileOp(c, st1, Op.Drop) == Result.Ok(st2);
    assert Compile(c, st1, Plain(Op.Drop, Done)) == Result.Ok(st2);
    assert Compile(c, st0, DropBody()) == Result.Ok(st2);
    assert DropCode()[..3] + [Imm8(RETURN, 0)] == DropCode();
  }

  lemma DropLoaded()
    ensures Invocable(DropStore(), DropCode(), DropOptions(), 0, 0, [])
  {
    var (s, code, o) := (DropStore(), DropCode(), DropOptions());
    DropCompiles();
    assert code[..0] == [];
    assert s.modules[0].functions[0] == DropFunc() && s.modules[0].index == DropIndex();
    hide CompileFunc;
    assert FuncLoaded(s, code, o, 0, 0);
    forall trace: seq<HostCall> ensures HostTyped(s, trace) {
    }
    assert RefOk(s, 0, DropIndex()[0]);
    assert TypesOf([]) == [];
  }

  /** The state in which the host pauses. */
  function DropPaused(): Mach {
    var header: seq<U32> := [0, 0xFFFF_FFFF];
    Mach(2, 0, header, 0, [HostCall(0, 0, [])], [Activation(0, 0, 0, 0, 0, 1)])
  }

  lemma DropEnters()
    ensures EnterCall(Mach(SENTINEL, 0, [], 0, [], []), DropFunc(), 0, SENTINEL, 0, 0)
        == DropPaused().(pc := 0, trace := [])
  {
    hide DropBody;
    var header: seq<U32> := [0, SENTINEL];
    assert [] + header + ZeroWords(0) == header;
    assert DropFunc().ParamWords() == 0 && DropFunc().LocalWords() == 0;
    var none: seq<Activation> := [];
    assert none + [Activation(0, 0, 0, 0, 0, 1)] == [Activation(0, 0, 0, 0, 0, 1)];
  }

  lemma NoHeader()
    ensures Header(0, 0, 0) == 0
  {
  }

  lemma DropSizes()
    ensures DropFunc().ParamWords() == 0 && DropFunc().RequiredWords() == 3 && DropFunc().sig.params == []
    ensures DropStore().modules == [Module([DropFunc()], DropIndex())] && DropStore().stackWords == 3
  {
    hide DropBody;
  }

  lemma DropStarts()
    ensures Invoke(DropStore(), 0, 0, []) == Next(DropPaused().(pc := 0, trace := []))
  {
    DropEnters();
    NoHeader();
    DropSizes();
    hide DropBody, EnterCall, DropPaused, Header, DropFunc, DropStore, DropIndex;
    assert Flat([]) == [] && TypesOf([]) == [];
    hide Flat;
  }

  lemma DropDecodes()
    ensures Decode(DropCode(), 0) == Decoded.Instr(Instr.CallHost(0, 0), 2)
    ensures Decode(DropCode(), 2) == Decoded.Instr(Instr.Drop(ValType.I32), 3)
  {
  }

  lemma DropAsks()
    ensures StepHost(DropStore(), 0, 0, DropPaused().(pc := 0, trace := []), 2)
        == Paused(DropPaused(), Some(ValType.I32))
  {
    var m := DropPaused().(pc := 0, trace := []);
    assert m.live[|m.live|..] == [] && m.live[..|m.live|] == m.live;
    assert ReadValues([], []) == [];
    assert [] + [HostCall(0, 0, [])] == DropPaused().trace;
    hide ReadValues;
  }

  lemma DropPauses()
    ensures StepOnce(DropStore(), DropCode(), DropPaused().(pc := 0, trace := []))
        == Paused(DropPaused(), Some(ValType.I32))
  {
    DropDecodes();
    DropAsks();
    hide Decode, DropCode, DropStore, StepHost;
  }

  lemma DropPops()
    ensures StepOnce(DropStore(), DropCode(), DropPaused()).Unsafe?
  {
    DropDecodes();
    hide Decode, DropCode, DropStore;
  }

  /** Running on without the value takes a word off the empty operand stack: the engine would read
      the frame header as the operand. */
  lemma DropUnderflows()
    ensures PausesAt(DropStore(), DropCode(), DropOptions(), 0, 0, [], 0, DropPaused().(pc := 0, trace := []), 1)
    ensures RunToPause(DropStore(), DropCode(), DropPaused().(pc := 0, trace := []), 1)
         == Paused(DropPaused(), Some(ValType.I32))
    ensures RunToPause(DropStore(), DropCode(), DropPaused(), 1).Unsafe?
  {
    hide Invocable, Invoke, StepOnce, DropStore, DropCode, DropPaused;
    DropLoaded();
    DropStarts();
    DropPauses();
    DropPops();
  }
}
