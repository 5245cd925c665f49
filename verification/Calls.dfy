/** Calls: a matched call, a run of the callee and a return bring the machine back behind the call,
    with the arguments replaced by the results. */
module Calls {
  import opened Values
  import opened Label
  import opened Ir
  import opened Wasm
  import opened Text
  import opened Chains
  import opened Frames
  import opened Extension
  import opened Typing
  import opened Locals
  import opened Machine
  import opened Simulation
  import opened Preservation
  import opened Blocks

  // ----- loaded programs -----

  /** `f` is what compiling its body at its entry gave, against the function index space `index`;
      later functions only added code behind it. */
  predicate Compiles(index: seq<FuncEntry>, code: seq<Word>, options: Options, f: Func) {
    && f.ParamWords() <= 0xFF && f.entry <= |code|
    && var r := CompileFunc(Context(f.sig, f.groups, index, options), code[..f.entry], f.body);
       r.Ok? && r.value.usage == f.usage && r.value.code <= code
  }

  predicate InStore(s: Store, m: int, i: int) { 0 <= m < |s.modules| && 0 <= i < |s.modules[m].functions| }

  predicate FuncLoaded(s: Store, code: seq<Word>, options: Options, m: nat, i: nat)
    requires m < |s.modules| && i < |s.modules[m].functions|
  {
    Compiles(s.modules[m].index, code, options, s.modules[m].functions[i])
  }

  /** Where the code of a function ends, behind its final return. */
  function CodeEnd(index: seq<FuncEntry>, code: seq<Word>, options: Options, f: Func): nat
    requires Compiles(index, code, options, f)
  {
    |CompileFunc(Context(f.sig, f.groups, index, options), code[..f.entry], f.body).value.code|
  }

  function FuncEnd(s: Store, code: seq<Word>, options: Options, m: nat, i: nat): nat
    requires m < |s.modules| && i < |s.modules[m].functions| && FuncLoaded(s, code, options, m, i)
  {
    CodeEnd(s.modules[m].index, code, options, s.modules[m].functions[i])
  }

  /** The codes of two functions do not overlap. */
  predicate FuncsApart(s: Store, code: seq<Word>, options: Options, m: nat, i: nat, n: nat, j: nat)
    requires m < |s.modules| && i < |s.modules[m].functions| && n < |s.modules| && j < |s.modules[n].functions|
  {
    && FuncLoaded(s, code, options, m, i) && FuncLoaded(s, code, options, n, j)
    && (|| FuncEnd(s, code, options, m, i) <= s.modules[n].functions[j].entry
        || FuncEnd(s, code, options, n, j) <= s.modules[m].functions[i].entry)
  }

  /** Every function is compiled in the code, each in a stretch of its own. */
  ghost predicate Loaded(s: Store, code: seq<Word>, options: Options) {
    && Linked(s) && HostsTyped(s) && OptionsOk(options) && |code| < 0x8000_0000
    && (forall m, i :: 0 <= m < |s.modules| && 0 <= i < |s.modules[m].functions| ==> FuncLoaded(s, code, options, m, i))
    && forall m, i, n, j :: InStore(s, m, i) && InStore(s, n, j) && (m != n || i != j) ==>
         FuncsApart(s, code, options, m, i, n, j)
  }

  /** The points at which compiling a sequence from `st` emits an instruction, each with the operand
      words counted there. */
  function Points(c: Context, st: State, code: Code): set<(int, nat)>
    decreases code, 1
  {
    match code
    case Done => {}
    case Plain(op, next) =>
      var r := CompileOp(c, st, op);
      if r.Err? then {} else (if op.Nop? then {} else {Point(st)}) + Points(c, r.value, next)
    case Block(rt, body, next) => BodyPoints(c, EnterBlock(c, st, rt), code, body, next)
    case Loop(rt, body, next) => BodyPoints(c, EnterLoop(c, st, rt), code, body, next)
    case If(rt, thn, next) => {Point(st)} + BodyPoints(c, EnterIf(c, st, rt), code, thn, next)
    case IfElse(rt, thn, els, next) =>
      var r1 := EnterIf(c, st, rt);
      if r1.Err? then {}
      else
        var r2 := Compile(c, r1.value, thn);
        if r2.Err? then {}
        else {Point(st), Point(r2.value)} + Points(c, r1.value, thn) + BodyPoints(c, Else(c, r2.value), code, els, next)
  }

  function Point(st: State): (int, nat) { (|st.code|, Height(st.values)) }

  /** A part of `code`: a body opened in `r`, its `end`, and what follows. */
  function BodyPoints(c: Context, r: Result<State, Error>, code: Code, body: Code, next: Code): set<(int, nat)>
    requires body < code && next < code
    decreases code, 0
  {
    if r.Err? then {}
    else
      var r2 := Compile(c, r.value, body);
      if r2.Err? || ExitBlock(c, r2.value).Err? then {}
      else Points(c, r.value, body) + Points(c, ExitBlock(c, r2.value).value, next)
  }

  /** The points of a function: those of its body, and its final return. */
  function FuncPoints(s: Store, code: seq<Word>, options: Options, m: nat, i: nat): set<(int, nat)>
    requires m < |s.modules| && i < |s.modules[m].functions| && s.modules[m].functions[i].entry <= |code|
  {
    var f := s.modules[m].functions[i];
    var c := Context(f.sig, f.groups, s.modules[m].index, options);
    var st := Start(c, code[..f.entry]);
    var r := Compile(c, st, f.body);
    if r.Err? then {} else Points(c, st, f.body) + {Point(r.value)}
  }

  /** The function of a site is one of the loaded ones, and all points of all functions are known. */
  ghost predicate SiteLoaded(x: Site) {
    && Loaded(x.s, x.code, x.options)
    && (forall m, i :: 0 <= m < |x.s.modules| && 0 <= i < |x.s.modules[m].functions| ==>
          && FuncLoaded(x.s, x.code, x.options, m, i) && FuncPoints(x.s, x.code, x.options, m, i) == x.points(m, i))
  }

  // ----- a called function -----

  /** From `m`, the body of the called function does what `o` says and returns with its results. */
  ghost predicate FuncSims(x: Site, m: Mach, fuel: nat, o: Outcome) {
    if o.Stuck? then false
    else if o.Trap? then exists n :: Follow(x.s, x.code, x.points, m, n) == Trapped(o.reason, o.trace)
    else if o.Timeout? then exists n :: n >= fuel && StillRunning(Follow(x.s, x.code, x.points, m, n), o.trace)
    else
      && (o.Branch? ==> o.l == 0)
      && Carries(o.c, x.f.sig.result) && HeaderLength(x.header) <= x.Fp()
      && exists n :: n >= 1 && Follow(x.s, x.code, x.points, m, n)
                     == ReturnStep(x, Flat(Top(o.c.stack, ResultCount(x.f.sig.result))), o.c.trace)
  }

  lemma {:induction false} FlatZeros(ts: seq<ValType>)
    ensures Flat(Zeros(ts)) == ZeroWords(WordLen(ts))
  {
    if ts != [] {
      var (front, t) := (ts[..|ts| - 1], ts[|ts| - 1]);
      FlatZeros(front);
      assert Zeros(ts) == Zeros(front) + [Zero(t)];
      assert WordLen(ts) == WordLen(front) + Width(t);
      hide Flat, ZeroWords, WordLen, ToWords, Zero, Width;
      FlatPush(Zeros(front), Zero(t));
      ZeroWordsMore(WordLen(front), Width(t));
      ZeroOf(t);
    } else {
      assert Zeros(ts) == [];
    }
  }

  lemma ZeroOf(t: ValType)
    ensures ToWords(Zero(t)) == ZeroWords(Width(t))
  {
    assert ZeroWords(1) == [0];
    assert ZeroWords(2) == [0, 0];
  }

  lemma {:induction false} ZeroWordsMore(a: nat, b: nat)
    ensures ZeroWords(a + b) == ZeroWords(a) + ZeroWords(b)
    decreases b
  {
    if b > 0 { ZeroWordsMore(a, b - 1); }
  }

  /** The callee's activation for a call at `pc`. */
  function Callee(x: Site, k: nat, i: nat, f: Func, locals: seq<Value>, keep: seq<Value>, pc: int): Site
    requires LocalsOk(x, locals) && f.ParamWords() <= 0xFF && 0 <= pc < 0x8000_0000
    requires 0 <= |FrameWords(x, locals) + Flat(keep)| + f.ParamWords() - x.Fp() < 0x1_0000
  {
    var below := FrameWords(x, locals) + Flat(keep);
    var length := |below| + f.ParamWords() - x.Fp();
    Site(x.s, x.code, x.options, k, i, f, below, Header(length, ModuleDelta(x.module_, k), f.ParamWords()), pc,
         x.outer + [x.Call()], x.points)
  }

  /** The caller leaves at most a 16-bit frame behind. */
  lemma CallerFrame(x: Site, f: Func, locals: seq<Value>, keep: seq<Value>, args: seq<Value>)
    requires SiteOk(x) && LocalsOk(x, locals) && TypesOf(args) == f.sig.params
    requires |Flat(keep + args)| <= x.f.usage
    ensures |Flat(args)| == f.ParamWords()
    ensures |FrameWords(x, locals) + Flat(keep)| == x.Call().Base() + |Flat(keep)|
    ensures 0 <= |FrameWords(x, locals) + Flat(keep)| + f.ParamWords() - x.Fp() < 0x1_0000
    ensures |Flat(keep + args)| == |Flat(keep)| + |Flat(args)|
  {
    hide Flat, FrameWords, Linked, HostsTyped;
    FlatLen(args);
    FlatConcat(keep, args);
    FrameLength(x, locals);
  }

  /** Entering the callee. */
  lemma CallEnters(
    x: Site, k: nat, i: nat, locals: seq<Value>, keep: seq<Value>, args: seq<Value>, pc: int, trace: seq<HostCall>)
    requires SiteOk(x) && LocalsOk(x, locals) && 0 <= pc < 0x8000_0000
    requires k < |x.s.modules| && i < |x.s.modules[k].functions|
    requires var f := x.s.modules[k].functions[i];
             && f.ParamWords() <= 0xFF && TypesOf(args) == f.sig.params && |Flat(keep + args)| <= x.f.usage
             && x.Call().Base() + |Flat(keep + args)| + f.RequiredWords() <= x.s.stackWords
    ensures var f := x.s.modules[k].functions[i];
            var start := args + Zeros(GroupTypes(f.groups));
            && 0 <= |FrameWords(x, locals) + Flat(keep)| + f.ParamWords() - x.Fp() < 0x1_0000
            && LocalsOk(Callee(x, k, i, f, locals, keep, pc), start)
            && StepCall(x.s, MachAt(x, pc, locals, keep + args, trace), k, i)
               == Next(MachAt(Callee(x, k, i, f, locals, keep, pc), f.entry, start, [], trace))
  {
    hide Flat, FrameWords, Linked, HostsTyped, Header, GroupTypes, WordLen, Zeros, EnterCall, ModuleDelta;
    var f := x.s.modules[k].functions[i];
    CallerFrame(x, f, locals, keep, args);
    CalleeStart(x, k, i, f, locals, keep, args, pc, trace);
    MachCalls(x, pc, locals, keep + args, trace);
  }

  /** The callee's first state lies on top of the caller's. */
  lemma CalleeStart(
    x: Site, k: nat, i: nat, f: Func, locals: seq<Value>, keep: seq<Value>, args: seq<Value>, pc: int,
    trace: seq<HostCall>)
    requires LocalsOk(x, locals) && f.ParamWords() <= 0xFF && 0 <= pc < 0x8000_0000
    requires TypesOf(args) == f.sig.params
    requires 0 <= |FrameWords(x, locals) + Flat(keep)| + f.ParamWords() - x.Fp() < 0x1_0000
    ensures var y := Callee(x, k, i, f, locals, keep, pc);
            var start := args + Zeros(GroupTypes(f.groups));
            && LocalsOk(y, start)
            && EnterCall(MachAt(x, pc, locals, keep + args, trace), f, y.header, pc, k, i)
               == MachAt(y, f.entry, start, [], trace)
  {
    hide Flat, FrameWords, LocalTypes;
    var y := Callee(x, k, i, f, locals, keep, pc);
    var zeros := Zeros(GroupTypes(f.groups));
    var start := args + zeros;
    CalleeLocals(y, args);
    FlatConcat(keep, args);
    FlatLen(args);
    CalleeFrame(y, args, zeros);
    FlatNone();
    var m := MachAt(x, pc, locals, keep + args, trace);
    assert m.live == y.below + Flat(args);
    assert FrameWords(y, start) + [] == FrameWords(y, start);
    assert m.live + [y.header, y.back] + ZeroWords(f.LocalWords()) == FrameWords(y, start);
  }

  lemma CalleeLocals(y: Site, args: seq<Value>)
    requires TypesOf(args) == y.f.sig.params
    ensures LocalsOk(y, args + Zeros(GroupTypes(y.f.groups)))
    ensures Flat(Zeros(GroupTypes(y.f.groups))) == ZeroWords(y.f.LocalWords())
  {
    TypesOfConcat(args, Zeros(GroupTypes(y.f.groups)));
    FlatZeros(GroupTypes(y.f.groups));
  }

  lemma CalleeFrame(y: Site, args: seq<Value>, zeros: seq<Value>)
    requires LocalsOk(y, args + zeros) && TypesOf(args) == y.f.sig.params
    ensures FrameWords(y, args + zeros) == y.below + Flat(args) + [y.header, y.back] + Flat(zeros)
  {
    hide Flat;
    assert |args| == |y.f.sig.params|;
    assert (args + zeros)[..|args|] == args && (args + zeros)[|args|..] == zeros;
  }

  /** The callee's frame leads back to the caller. */
  lemma CalleeOk(
    x: Site, k: nat, i: nat, locals: seq<Value>, keep: seq<Value>, args: seq<Value>, pc: int)
    requires SiteOk(x) && SiteLoaded(x) && LocalsOk(x, locals) && 0 <= pc < 0x8000_0000
    requires k < |x.s.modules| && i < |x.s.modules[k].functions|
    requires var f := x.s.modules[k].functions[i];
             && TypesOf(args) == f.sig.params && |Flat(keep + args)| <= x.f.usage
             && x.Call().Base() + |Flat(keep + args)| + f.RequiredWords() <= x.s.stackWords
             && |Flat(keep)| + ResultWords(f.sig.result) <= x.f.usage
    ensures var f := x.s.modules[k].functions[i];
            && f.ParamWords() <= 0xFF
            && 0 <= |FrameWords(x, locals) + Flat(keep)| + f.ParamWords() - x.Fp() < 0x1_0000
            && var y := Callee(x, k, i, f, locals, keep, pc);
               && SiteOk(y) && SiteLoaded(y) && CallerModule(y) == x.module_
               && y.back != SENTINEL && y.Fp() - HeaderLength(y.header) == x.Fp()
               && y.Fp() == x.Call().Base() + |Flat(keep + args)|
  {
    hide Flat, FrameWords, Linked, HostsTyped;
    var f := x.s.modules[k].functions[i];
    CalleeBounds(x, k, i);
    CallerFrame(x, f, locals, keep, args);
    var y := Callee(x, k, i, f, locals, keep, pc);
    CalleeHeader(x, y);
    CalleeReturn(x, y, locals, keep);
  }

  lemma CalleeHeader(x: Site, y: Site)
    requires x.module_ < 0x100 && y.module_ < 0x100 && y.f.ParamWords() <= 0xFF && 0 <= y.Fp() - x.Fp() < 0x1_0000
    requires y.header == Header(y.Fp() - x.Fp(), ModuleDelta(x.module_, y.module_), y.f.ParamWords())
    ensures HeaderParams(y.header) == y.f.ParamWords() && HeaderLength(y.header) == y.Fp() - x.Fp()
    ensures CallerModule(y) == x.module_
  {
    HeaderFields(y.Fp() - x.Fp(), ModuleDelta(x.module_, y.module_), y.f.ParamWords());
    ModuleThereAndBack(x.module_, y.module_);
  }

  lemma CalleeReturn(x: Site, y: Site, locals: seq<Value>, keep: seq<Value>)
    requires SiteOk(x) && LocalsOk(x, locals) && y.below == FrameWords(x, locals) + Flat(keep)
    requires y.outer == x.outer + [x.Call()] && y.s == x.s && 0 <= y.back < 0x8000_0000
    requires HeaderParams(y.header) == y.f.ParamWords() && HeaderLength(y.header) == y.Fp() - x.Fp()
    requires CallerModule(y) == x.module_
    requires |Flat(keep)| + ResultWords(y.f.sig.result) <= x.f.usage
    ensures Simulation.ReturnOk(y)
  {
    hide Flat, FrameWords, Linked, HostsTyped;
    FrameLength(x, locals);
  }

  lemma CalleeBounds(x: Site, k: nat, i: nat)
    requires SiteLoaded(x) && k < |x.s.modules| && i < |x.s.modules[k].functions|
    ensures var f := x.s.modules[k].functions[i];
            f.ParamWords() <= 0xFF && 2 + f.LocalWords() + f.usage <= 0xFFFF
    ensures |x.s.modules| <= 0x100
  {
    assert FuncLoaded(x.s, x.code, x.options, k, i);
    hide Compile, Finish;
  }

  /** Back behind the call. */
  lemma CallReturns(
    x: Site, y: Site, locals: seq<Value>, keep: seq<Value>, results: seq<Value>, pc: int, trace: seq<HostCall>)
    requires LocalsOk(x, locals) && HeaderLength(y.header) <= y.Fp()
    requires y.below == FrameWords(x, locals) + Flat(keep) && y.back == pc && pc != SENTINEL
    requires CallerModule(y) == x.module_ && y.Fp() - HeaderLength(y.header) == x.Fp()
    requires y.outer == x.outer + [x.Call()]
    ensures ReturnStep(y, Flat(results), trace) == Next(MachAt(x, AfterCall(pc), locals, keep + results, trace))
  {
    hide Flat, FrameWords;
    FlatConcat(keep, results);
  }

  // ----- what the compiler knows at a call -----

  /** The operands are there, and the results will fit. */
  lemma CallTyped(
    x: Site, st: State, st': State, k: nat, outer: seq<Value>, c: Config, goals: seq<Goal>, lo: nat)
    requires SiteOk(x) && ChainsOk(st, lo) && Typed(x, st, outer, c)
    requires CompileCall(ContextOf(x), st, k) == Result.Ok(st') && Agree(x.code, st', goals)
    requires st'.highwater <= x.f.usage
    ensures k < |x.s.modules[x.module_].index|
    ensures var e := x.s.modules[x.module_].index[k];
            var n := |e.sig.params|;
            && n <= |c.stack| && TypesOf(Top(c.stack, n)) == e.sig.params
            && c.stack == c.stack[..|c.stack| - n] + Top(c.stack, n)
            && (forall results :: TypesOf(results) == ResultTypes(e.sig.result) ==>
                  Typed(x, st', outer, Config(c.locals, c.stack[..|c.stack| - n] + results, c.trace)))
            && |Flat(outer + c.stack[..|c.stack| - n])| + ResultWords(e.sig.result) <= x.f.usage
            && |st'.code| == |st.code| + 2
            && forall m: Mach :: m.pc == |st.code| ==>
                 StepOnce(x.s, x.code, m) == StepInstr(x.s, CallInstr(e.ref), |st'.code|, m)
  {
    hide Flat, Agree, ChainsOk, SiteOk, Height, ChainOk, Chain, Emit, PushResult, PopTypes, StackOk, Live;
    hide Encode, Linked;
    hide HostsTyped, StepInstr;
    var cx := ContextOf(x);
    SiteModule(x);
    var e := cx.index[k];
    var n := |e.sig.params|;
    PopTypesLive(st, e.sig.params);
    TypedTop(x, st, outer, c, e.sig.params);
    var st1 := PopTypes(st, e.sig.params).value;
    var st2 := PushResult(cx, st1, e.sig.result).value;
    var rest := c.stack[..|c.stack| - n];
    EmitSame(cx, st2, Encode(CallInstr(e.ref)));
    CallPushes(x, st1, st2, e.sig.result, outer, Config(c.locals, rest, c.trace));
    CallEmitted(x, st, st2, st', e, goals, lo);
    forall results | TypesOf(results) == ResultTypes(e.sig.result)
      ensures Typed(x, st', outer, Config(c.locals, rest + results, c.trace))
    {
      EmittedTyped(x, st2, st', outer, Config(c.locals, rest + results, c.trace));
    }
  }

  lemma TypedTrace(x: Site, st: State, outer: seq<Value>, c: Config, trace: seq<HostCall>)
    requires Typed(x, st, outer, c)
    ensures Typed(x, st, outer, c.(trace := trace))
  {
  }

  lemma SiteModule(x: Site)
    requires SiteOk(x)
    ensures x.module_ < |x.s.modules| && Linked(x.s) && HostsTyped(x.s)
  {
  }

  lemma CallEmitted(x: Site, st: State, st2: State, st': State, e: FuncEntry, goals: seq<Goal>, lo: nat)
    requires SiteOk(x) && ChainsOk(st, lo) && SameCode(st, st2)
    requires Emit(ContextOf(x), st2, Encode(CallInstr(e.ref))) == Result.Ok(st') && Agree(x.code, st', goals)
    ensures |st'.code| == |st.code| + 2 && st' == st2.(code := st'.code)
    ensures forall m: Mach :: m.pc == |st.code| ==>
              StepOnce(x.s, x.code, m) == StepInstr(x.s, CallInstr(e.ref), |st'.code|, m)
  {
    hide Agree, ChainsOk, SiteOk, StepInstr, StepOnce;
    SameChains(st, st2, lo);
    forall m: Mach | m.pc == |st.code|
      ensures StepOnce(x.s, x.code, m) == StepInstr(x.s, CallInstr(e.ref), |st'.code|, m)
    {
      Fetch(x, st2, st', CallInstr(e.ref), goals, lo, m);
    }
  }

  lemma CallPushes(x: Site, st1: State, st2: State, r: ResultType, outer: seq<Value>, c: Config)
    requires StackOk(st1) && Live(st1) && LocalsOk(x, c.locals) && st1.values == Knowns(TypesOf(outer + c.stack))
    requires |outer| == Innermost(st1).height && PushResult(ContextOf(x), st1, r) == Result.Ok(st2)
    requires st2.highwater <= x.f.usage
    ensures SameCode(st1, st2)
    ensures forall results :: TypesOf(results) == ResultTypes(r) ==>
              Typed(x, st2, outer, Config(c.locals, c.stack + results, c.trace))
    ensures |Flat(outer + c.stack)| + ResultWords(r) <= x.f.usage
  {
    hide StackOk, Live, Height, Flat, PushOperand;
    forall results | TypesOf(results) == ResultTypes(r)
      ensures Typed(x, st2, outer, Config(c.locals, c.stack + results, c.trace))
      ensures |Flat(outer + c.stack)| + ResultWords(r) <= x.f.usage
    {
      assert |results| == |TypesOf(results)|;
      if r.None? {
        assert c.stack + results == c.stack;
        PushNothing(x, st1, st2, outer, c);
      } else {
        var v := results[0];
        assert results == [v] && TypesOf([v])[0] == r.value;
        PushSame(ContextOf(x), st1, Known(r.value));
        TypedPush(x, st1, st2, outer, c, v);
      }
      var c' := Config(c.locals, c.stack + results, c.trace);
      TypedFits(x, st2, outer, c');
      assert outer + c'.stack == (outer + c.stack) + results;
      FlatConcat(outer + c.stack, results);
      ResultLen(r, results);
    }
    SomeResult(r);
    if r.Some? { PushSame(ContextOf(x), st1, Known(r.value)); }
  }

  lemma PushNothing(x: Site, st1: State, st2: State, outer: seq<Value>, c: Config)
    requires StackOk(st1) && Live(st1) && LocalsOk(x, c.locals) && st1.values == Knowns(TypesOf(outer + c.stack))
    requires |outer| == Innermost(st1).height && st2 == st1 && st2.highwater <= x.f.usage
    ensures Typed(x, st2, outer, c)
  {
  }

  lemma SomeResult(r: ResultType)
    ensures exists results :: TypesOf(results) == ResultTypes(r)
  {
    assert TypesOf(Zeros(ResultTypes(r))) == ResultTypes(r);
  }

  // ----- host calls -----

  lemma {:induction false} ReadFlat(ts: seq<ValType>, vs: seq<Value>)
    requires TypesOf(vs) == ts
    ensures |Flat(vs)| == WordLen(ts) && ReadValues(ts, Flat(vs)) == vs
    decreases |ts|
  {
    FlatLen(vs);
    if ts != [] {
      var k := |ts| - 1;
      assert TypesOf(vs[..k]) == ts[..k];
      ReadFlat(ts[..k], vs[..k]);
      FromToWords(vs[k]);
      var ws := Flat(vs);
      assert ws == Flat(vs[..k]) + ToWords(vs[k]);
      assert ws[..|ws| - Width(ts[k])] == Flat(vs[..k]);
      assert ws[|ws| - Width(ts[k])..] == ToWords(vs[k]);
    }
  }

  /** Pushing what a host answered. */
  lemma HostAnswer(
    x: Site, locals: seq<Value>, keep: seq<Value>, v: Option<Value>, r: ResultType, trace: seq<HostCall>, next: int)
    requires LocalsOk(x, locals) && TypesOf(OptionSeq(v)) == ResultTypes(r)
    requires |Flat(keep)| + ResultWords(r) <= x.f.usage
    ensures Replace(MachAt(x, next, locals, keep, trace), 0, if v.None? then [] else ToWords(v.value), next)
         == Next(MachAt(x, next, locals, keep + OptionSeq(v), trace))
  {
    hide Flat, FrameWords, ToWords, Replace;
    ResultLen(r, OptionSeq(v));
    FlatConcat(keep, OptionSeq(v));
    FlatNone();
    if v.Some? { FlatOne(v.value); }
    assert keep + [] == keep;
    ReplaceAt(x, next, locals, keep, [], OptionSeq(v), trace, 0, Flat(OptionSeq(v)), next);
  }

  /** One host call that is answered, at once or after a pause. */
  lemma HostAnswers(
    x: Site, h: nat, i: nat, sig: FuncSig, pc: int, locals: seq<Value>, keep: seq<Value>, args: seq<Value>,
    trace: seq<HostCall>, t: seq<HostCall>, next: int)
    requires LocalsOk(x, locals) && HostsTyped(x.s) && t == trace + [HostCall(h, i, args)]
    requires h < |x.s.hosts| && i < |x.s.hosts[h]| && x.s.hosts[h][i] == sig && TypesOf(args) == sig.params
    requires |Flat(keep)| + ResultWords(sig.result) <= x.f.usage
    requires StepOnce(x.s, x.code, MachAt(x, pc, locals, keep + args, trace))
          == StepHost(x.s, h, i, MachAt(x, pc, locals, keep + args, trace), next)
    requires !x.s.reply(t).HostTrap?
    ensures TypesOf(OptionSeq(x.s.reply(t).result)) == ResultTypes(sig.result)
    ensures Advance(x.s, x.code, MachAt(x, pc, locals, keep + args, trace))
         == Next(MachAt(x, next, locals, keep + OptionSeq(x.s.reply(t).result), t))
  {
    hide Flat, FrameWords, HostsTyped, ToWords, Replace, ReadValues, CanPop, StepOnce, StepHost, MachAt, Advance, Below;
    hide OptionSeq;
    HostReplies(x.s, h, i, sig, t, args);
    HostPop(x, sig, pc, locals, keep, args, trace, t, next);
    var v := x.s.reply(t).result;
    HostAnswer(x, locals, keep, v, sig.result, t, next);
    HostAdvance(x, h, i, sig, MachAt(x, pc, locals, keep + args, trace), MachAt(x, next, locals, keep, t), args, next);
  }

  lemma HostTraps(
    x: Site, h: nat, i: nat, sig: FuncSig, pc: int, locals: seq<Value>, keep: seq<Value>, args: seq<Value>,
    trace: seq<HostCall>, t: seq<HostCall>, next: int)
    requires LocalsOk(x, locals) && t == trace + [HostCall(h, i, args)]
    requires h < |x.s.hosts| && i < |x.s.hosts[h]| && x.s.hosts[h][i] == sig && TypesOf(args) == sig.params
    requires StepOnce(x.s, x.code, MachAt(x, pc, locals, keep + args, trace))
          == StepHost(x.s, h, i, MachAt(x, pc, locals, keep + args, trace), next)
    requires x.s.reply(t).HostTrap?
    ensures Advance(x.s, x.code, MachAt(x, pc, locals, keep + args, trace)) == Trapped(TrapReason.Host, t)
  {
    hide Flat, FrameWords, ToWords, Replace, ReadValues, CanPop, StepOnce, StepHost, MachAt, Advance, Below;
    HostPop(x, sig, pc, locals, keep, args, trace, t, next);
    HostAdvance(x, h, i, sig, MachAt(x, pc, locals, keep + args, trace), MachAt(x, next, locals, keep, t), args, next);
  }

  lemma HostPop(
    x: Site, sig: FuncSig, pc: int, locals: seq<Value>, keep: seq<Value>, args: seq<Value>,
    trace: seq<HostCall>, t: seq<HostCall>, next: int)
    requires LocalsOk(x, locals) && TypesOf(args) == sig.params
    ensures var m := MachAt(x, pc, locals, keep + args, trace);
            var n := WordLen(sig.params);
            && m.trace == trace && MachAt(x, next, locals, keep, t).trace == t
            && CanPop(m, n) && m.(live := Below(m, n), pc := next, trace := t) == MachAt(x, next, locals, keep, t)
            && ReadValues(sig.params, m.live[|m.live| - n..]) == args
  {
    hide Flat, FrameWords, ReadValues, CanPop;
    ReadFlat(sig.params, args);
    TopWords(x, pc, locals, keep, args, trace);
  }

  lemma HostReplies(s: Store, h: nat, i: nat, sig: FuncSig, t: seq<HostCall>, args: seq<Value>)
    requires HostsTyped(s) && h < |s.hosts| && i < |s.hosts[h]| && s.hosts[h][i] == sig
    requires t != [] && t[|t| - 1] == HostCall(h, i, args)
    ensures !s.reply(t).HostTrap? ==>
              ReplyType(s.reply(t)) == sig.result && TypesOf(OptionSeq(s.reply(t).result)) == ResultTypes(sig.result)
  {
    assert HostTyped(s, t);
    if !s.reply(t).HostTrap? { AnswerTyped(sig.result, s.reply(t)); }
  }

  /** The host's answer reaches the stack in the same way at once and by a resumption. */
  lemma HostAdvance(x: Site, h: nat, i: nat, sig: FuncSig, m: Mach, m1: Mach, args: seq<Value>, next: int)
    requires h < |x.s.hosts| && i < |x.s.hosts[h]| && x.s.hosts[h][i] == sig
    requires var n := WordLen(sig.params);
             && CanPop(m, n) && m.(live := Below(m, n), pc := next, trace := m1.trace) == m1
             && ReadValues(sig.params, m.live[|m.live| - n..]) == args
    requires m1.trace == m.trace + [HostCall(h, i, args)]
    requires !x.s.reply(m1.trace).HostTrap? ==> ReplyType(x.s.reply(m1.trace)) == sig.result
    requires StepOnce(x.s, x.code, m) == StepHost(x.s, h, i, m, next)
    ensures var reply := x.s.reply(m1.trace);
            Advance(x.s, x.code, m) ==
            if reply.HostTrap? then Trapped(TrapReason.Host, m1.trace)
            else Replace(m1, 0, if reply.result.None? then [] else ToWords(reply.result.value), next)
  {
    hide CanPop, ReadValues, StepOnce, ToWords, WordLen;
  }

  lemma AnswerTyped(r: ResultType, reply: HostReply)
    requires !reply.HostTrap? && ReplyType(reply) == r
    ensures TypesOf(OptionSeq(reply.result)) == ResultTypes(r)
  {
  }

  lemma HostCallSims(
    x: Site, st: State, st': State, k: nat, outer: seq<Value>, c: Config, goals: seq<Goal>, lo: nat, fuel: nat)
    requires SiteOk(x) && ChainsOk(st, lo) && Typed(x, st, outer, c)
    requires CompileCall(ContextOf(x), st, k) == Result.Ok(st') && Agree(x.code, st', goals)
    requires st'.highwater <= x.f.usage
    requires k < |ContextOf(x).index| && ContextOf(x).index[k].ref.Host?
    requires Marked(x, st)
    ensures Sims(x, st, st', goals, outer, MachOf(x, st, outer, c), fuel,
                 ExecCall(x.s, x.module_, k, c, x.Call().Base() + |Flat(outer)|, fuel))
  {
    hide Agree, ChainsOk, SiteOk, CompileCall, Flat, FrameWords, StackOk, Live, StepOnce, HostsTyped, Advance;
    hide StepHost, Follow;
    hide Located, Marked, Sims, StepSims, ExecHost, ExecCall, StepInstr, Typed, MachAt, RefOk, Linked, Top;
    MarkedMach(x, st, outer, c);
    CallTyped(x, st, st', k, outer, c, goals, lo);
    SiteModule(x);
    TypedStack(x, st, outer, c);
    var e := x.s.modules[x.module_].index[k];
    StartsAt(x, |st.code|, c.locals, outer + c.stack, c.trace);
    HostEntry(x.s, x.module_, k, c, x.Call().Base() + |Flat(outer)|, fuel);
    HostInstr(x.s, MachOf(x, st, outer, c), e.ref, |st'.code|);
    HostStep(x, st', outer, c, |st.code|, e.ref.module_, e.ref.index, e.sig);
    StepThenSims(x, st, st', goals, outer, MachOf(x, st, outer, c), fuel,
        ExecHost(x.s, e.ref.module_, e.ref.index, e.sig, c));
  }

  lemma HostEntry(s: Store, m: nat, k: nat, c: Config, below: nat, fuel: nat)
    requires Linked(s) && m < |s.modules| && k < |s.modules[m].index| && s.modules[m].index[k].ref.Host?
    ensures var e := s.modules[m].index[k];
            && e.ref.module_ < |s.hosts| && e.ref.index < |s.hosts[e.ref.module_]|
            && s.hosts[e.ref.module_][e.ref.index] == e.sig
            && ExecCall(s, m, k, c, below, fuel) == ExecHost(s, e.ref.module_, e.ref.index, e.sig, c)
  {
    hide ExecHost;
    assert RefOk(s, m, s.modules[m].index[k]);
  }

  lemma HostInstr(s: Store, m: Mach, ref: FuncRef, next: int)
    requires ref.Host?
    ensures StepInstr(s, CallInstr(ref), next, m) == StepHost(s, ref.module_, ref.index, m, next)
  {
    hide StepHost;
  }

  /** The step at a call of a host, once the arguments are known to be there. */
  lemma HostStep(x: Site, st': State, outer: seq<Value>, c: Config, pc: int, h: nat, i: nat, sig: FuncSig)
    requires LocalsOk(x, c.locals) && HostsTyped(x.s)
    requires h < |x.s.hosts| && i < |x.s.hosts[h]| && x.s.hosts[h][i] == sig
    requires |sig.params| <= |c.stack| && TypesOf(Top(c.stack, |sig.params|)) == sig.params
    requires var rest := c.stack[..|c.stack| - |sig.params|];
             && |Flat(outer + rest)| + ResultWords(sig.result) <= x.f.usage
             && forall results :: TypesOf(results) == ResultTypes(sig.result) ==>
                  Typed(x, st', outer, Config(c.locals, rest + results, c.trace))
    requires StepOnce(x.s, x.code, MachAt(x, pc, c.locals, outer + c.stack, c.trace))
          == StepHost(x.s, h, i, MachAt(x, pc, c.locals, outer + c.stack, c.trace), |st'.code|)
    ensures StepSims(x, st', outer, MachAt(x, pc, c.locals, outer + c.stack, c.trace), ExecHost(x.s, h, i, sig, c))
  {
    hide Flat, StepOnce, HostsTyped, Advance, StepHost, Typed, MachAt, LocalsOk, OptionSeq;
    var rest := c.stack[..|c.stack| - |sig.params|];
    var args := Top(c.stack, |sig.params|);
    assert outer + c.stack == (outer + rest) + args;
    var t := c.trace + [HostCall(h, i, args)];
    if x.s.reply(t).HostTrap? {
      HostTraps(x, h, i, sig, pc, c.locals, outer + rest, args, c.trace, t, |st'.code|);
    } else {
      HostAnswers(x, h, i, sig, pc, c.locals, outer + rest, args, c.trace, t, |st'.code|);
      var results := OptionSeq(x.s.reply(t).result);
      TypedTrace(x, st', outer, Config(c.locals, rest + results, c.trace), t);
      TypedStack(x, st', outer, Config(c.locals, rest + results, t));
      assert (outer + rest) + results == outer + (rest + results);
    }
  }

  // ----- calls of compiled functions -----

  /** The function a call leads to. */
  predicate Leads(ref: FuncRef, m: nat, k: nat, i: nat) {
    match ref
    case Local(j) => k == m && i == j
    case Extern(n, j) => k == n && i == j
    case Host(_, _) => false
  }

  lemma CallStep(s: Store, m: Mach, ref: FuncRef, k: nat, i: nat, next: int)
    requires Leads(ref, m.module_, k, i)
    ensures StepInstr(s, CallInstr(ref), next, m) == StepCall(s, m, k, i)
  {
    hide StepCall;
  }

  lemma CallOverflows(
    x: Site, st: State, outer: seq<Value>, c: Config, k: nat, i: nat)
    requires LocalsOk(x, c.locals) && k < |x.s.modules| && i < |x.s.modules[k].functions|
    ensures var f := x.s.modules[k].functions[i];
            var below := x.Call().Base() + |Flat(outer)|;
            var m := MachOf(x, st, outer, c);
            && |m.live| == below + StackWords(c)
            && (x.s.stackWords < below + StackWords(c) + f.RequiredWords() ==>
                  StepCall(x.s, m, k, i) == Trapped(StackOverflow, c.trace))
  {
    hide Flat, FrameWords;
    MachCalls(x, |st.code|, c.locals, outer + c.stack, c.trace);
    FlatConcat(outer, c.stack);
  }

  /** After the callee has returned, or not. */
  lemma CallFinished(
    x: Site, y: Site, st: State, st': State, goals: seq<Goal>, outer: seq<Value>, c: Config, rest: seq<Value>,
    m: Mach, m1: Mach, fuel: nat, o: Outcome)
    requires LocalsOk(x, c.locals) && Follow(x.s, x.code, x.points, m, 1) == Next(m1) && fuel > 0
    requires y.s == x.s && y.code == x.code && y.points == x.points && FuncSims(y, m1, fuel - 1, o)
    requires HeaderLength(y.header) <= y.Fp() && |st.code| + 2 == |st'.code| < 0x8000_0000
    requires y.below == FrameWords(x, c.locals) + Flat(outer + rest) && y.back == |st.code|
    requires CallerModule(y) == x.module_
    requires y.Fp() - HeaderLength(y.header) == x.Fp() && y.outer == x.outer + [x.Call()]
    requires forall results :: TypesOf(results) == ResultTypes(y.f.sig.result) ==>
               Typed(x, st', outer, Config(c.locals, rest + results, c.trace))
    ensures Sims(x, st, st', goals, outer, m, fuel, LeaveFunc(o, c, rest, ResultCount(y.f.sig.result)))
  {
    hide Flat, FrameWords, Advance, Typed, ReturnStep, HeaderLength, CallerModule;
    if o.Trap? {
      var n :| Follow(x.s, x.code, x.points, m1, n) == Trapped(o.reason, o.trace);
      FollowJoin(x, m, m1, 1, n);
    } else if o.Timeout? {
      var n :| n >= fuel - 1 && StillRunning(Follow(x.s, x.code, x.points, m1, n), o.trace);
      FollowJoin(x, m, m1, 1, n);
    } else {
      var results := Top(o.c.stack, ResultCount(y.f.sig.result));
      var n :| n >= 1 && Follow(x.s, x.code, x.points, m1, n) == ReturnStep(y, Flat(results), o.c.trace);
      FollowJoin(x, m, m1, 1, n);
      CallReturns(x, y, c.locals, outer + rest, results, |st.code|, o.c.trace);
      TypedTrace(x, st', outer, Config(c.locals, rest + results, c.trace), o.c.trace);
      assert (outer + rest) + results == outer + (rest + results);
      assert Follow(x.s, x.code, x.points, m, 1 + n)
          == Next(MachOf(x, st', outer, Config(c.locals, rest + results, o.c.trace)));
    }
  }
}
