/** The interpreter as a transition system (src/interpreter.rs).

    The engine itself checks no stack access. This machine does: besides the engine's registers it
    carries the bounds of every active call, and is `Unsafe` where the engine would leave the
    operand area of its frame, read a header as a local, follow a damaged frame or run off the code.
    `Simulation` proves that compiled code never gets there; `Engine` proves that where the
    machine is not unsafe the engine does the same without checking. */
module Machine {
  import opened Values
  import opened Label
  import opened Ir
  import opened Wasm

  /** One active call: the function that runs, and the bounds of its frame, with the header at `fp`,
      parameters below it, locals and operands above. */
  datatype Activation = Activation(module_: nat, index: nat, fp: nat, params: nat, locals: nat, usage: nat) {
    function Base(): nat { fp + 2 + locals }

    function Limit(): nat { Base() + usage }
  }

  /** The bounds are those of the function that runs. */
  predicate Runs(s: Store, a: Activation) {
    && a.module_ < |s.modules| && a.index < |s.modules[a.module_].functions|
    && var f := s.modules[a.module_].functions[a.index];
       a.params == f.ParamWords() && a.locals == f.LocalWords() && a.usage == f.usage
  }

  /** `live` is the part of the stack below the stack pointer. */
  datatype Mach = Mach(
    pc: int, fp: nat, live: seq<U32>, module_: nat, trace: seq<HostCall>, calls: seq<Activation>)

  datatype Step =
    | Next(m: Mach)
    | Paused(m: Mach, want: ResultType)
    | Finished(result: seq<U32>, sp: nat, fp: nat, trace: seq<HostCall>)
    | Trapped(reason: TrapReason, trace: seq<HostCall>)
    | Unsafe

  // ----- frame headers -----

  /** `CallFrame`: 16-bit frame length, 8-bit module delta, 8-bit parameter size. */
  function Header(length: nat, delta: U8, params: nat): U32
    requires length < 0x1_0000 && params < 0x100
  {
    length + delta * 0x1_0000 + params * 0x100_0000
  }

  function HeaderLength(h: U32): nat { h % 0x1_0000 }

  function HeaderDelta(h: U32): nat { h / 0x1_0000 % 0x100 }

  function HeaderParams(h: U32): nat { h / 0x100_0000 }

  lemma HeaderFields(length: nat, delta: U8, params: nat)
    requires length < 0x1_0000 && params < 0x100
    ensures var h := Header(length, delta, params);
            HeaderLength(h) == length && HeaderDelta(h) == delta && HeaderParams(h) == params
  {
  }

  /** `f_ref.module.wrapping_sub(self.module)`. */
  function ModuleDelta(from: nat, to: nat): U8 { (to - from) % 0x100 }

  /** `state.module.wrapping_sub(delta)`. */
  function ModuleBack(current: nat, delta: nat): nat { (current - delta) % 0x100 }

  lemma ModuleThereAndBack(from: nat, to: nat)
    requires from < 0x100 && to < 0x100
    ensures ModuleBack(to, ModuleDelta(from, to)) == from
    ensures ModuleDelta(from, to) == 0 <==> from == to
  {
  }

  // ----- operands -----

  function Current(m: Mach): Activation
    requires m.calls != []
  {
    m.calls[|m.calls| - 1]
  }

  predicate CanPop(m: Mach, n: nat) {
    m.calls != [] && Current(m).Base() + n <= |m.live|
  }

  function Below(m: Mach, n: nat): seq<U32>
    requires n <= |m.live|
  {
    m.live[..|m.live| - n]
  }

  /** Replace the topmost `n` words by `ws`. */
  function Replace(m: Mach, n: nat, ws: seq<U32>, pc: int): Step {
    if CanPop(m, n) && |m.live| - n + |ws| <= Current(m).Limit()
    then Next(m.(live := Below(m, n) + ws, pc := pc))
    else Unsafe
  }

  function Bool(b: bool): seq<U32> { if b then [1] else [0] }

  /** `wrapping_add` on 32 bits. */
  function WrapAdd32(a: int, b: int): U32 { (a + b) % 0x1_0000_0000 }

  /** The numeric handlers on raw words; `None` is the trap on division by zero. */
  function NumWords(op: NumOp, ws: seq<U32>): Option<seq<U32>>
    requires |ws| == WordLen(NumParams(op))
  {
    NumParamWords(op);
    match op
    case I32Eqz => Some(Bool(ws[0] == 0))
    case I64Eqz => Some(Bool(Join64(ws[0], ws[1]) == 0))
    case I64Eq => Some(Bool(Join64(ws[0], ws[1]) == Join64(ws[2], ws[3])))
    case I32Add => Some([WrapAdd32(ws[0], ws[1])])
    case I32DivU => if ws[1] == 0 then None else DivShrinks(ws[0], ws[1]); Some([ws[0] / ws[1]])
    case I64Add =>
      var d: U64 := (Join64(ws[0], ws[1]) + Join64(ws[2], ws[3])) % 0x1_0000_0000_0000_0000;
      Some([Low32(d), High32(d)])
    case I32WrapI64 => Some([Low32(Join64(ws[0], ws[1]))])
    case I64ExtendI32U => Some([Low32(ws[0]), High32(ws[0])])
  }

  lemma WordLenShort(t: ValType, u: ValType)
    ensures WordLen([t]) == Width(t) && WordLen([t, u]) == Width(t) + Width(u)
  {
    assert [t][..0] == [] && [t, u][..1] == [t];
  }

  lemma NumParamWords(op: NumOp)
    ensures WordLen(NumParams(op)) ==
            match op
            case I64Eq => 4
            case I64Add => 4
            case I32Eqz => 1
            case I64ExtendI32U => 1
            case _ => 2
  {
    WordLenShort(NumParams(op)[0], NumParams(op)[|NumParams(op)| - 1]);
  }

  function StepNum(op: NumOp, m: Mach, next: int): Step {
    var n := WordLen(NumParams(op));
    if !CanPop(m, n) then Unsafe
    else
      match NumWords(op, m.live[|m.live| - n..])
      case Some(ws) => Replace(m, n, ws, next)
      case None => Trapped(DivideByZero, m.trace)
  }

  /** `select`: the condition is on top, the second value under it, the first value deepest. */
  function StepSelect(t: ValType, m: Mach, next: int): Step {
    var w := Width(t);
    if !CanPop(m, 2 * w + 1) then Unsafe
    else
      var n := |m.live|;
      if m.live[n - 1] != 0 then Replace(m, w + 1, [], next)
      else Replace(m, 2 * w + 1, m.live[n - 1 - w..n - 1], next)
  }

  // ----- locals -----

  /** The words at `offset` from the frame pointer are a parameter or a local, never the header. */
  predicate LocalIn(a: Activation, offset: int, w: nat) {
    (0 <= a.params + offset && offset + w <= 0) || (2 <= offset && offset + w <= 2 + a.locals)
  }

  predicate CanAccess(m: Mach, offset: int, w: nat) {
    && m.calls != [] && m.fp == Current(m).fp && LocalIn(Current(m), offset, w)
    && 0 <= m.fp + offset && m.fp + offset + w <= |m.live|
  }

  function StepLocalGet(t: ValType, offset: int, m: Mach, next: int): Step {
    var a := m.fp + offset;
    if CanAccess(m, offset, Width(t)) then Replace(m, 0, m.live[a..a + Width(t)], next) else Unsafe
  }

  function SetWords(live: seq<U32>, a: nat, ws: seq<U32>): (r: seq<U32>)
    requires a + |ws| <= |live|
    ensures |r| == |live|
  {
    live[..a] + ws + live[a + |ws|..]
  }

  /** `local.tee`. */
  function StepLocalTee(t: ValType, offset: int, m: Mach, next: int): Step {
    var w := Width(t);
    if CanPop(m, w) && CanAccess(m, offset, w) then
      Next(m.(live := SetWords(m.live, m.fp + offset, m.live[|m.live| - w..]), pc := next))
    else Unsafe
  }

  function StepLocalSet(t: ValType, offset: int, m: Mach, next: int): Step {
    var r := StepLocalTee(t, offset, m, next);
    if r.Next? && Width(t) <= |r.m.live| then Replace(r.m, Width(t), [], next) else r
  }

  // ----- calls and branches -----

  /** Past the two words of a call instruction. */
  function AfterCall(pc: int): int { pc + 2 }

  /** `return_`. */
  function StepReturn(s: Store, m: Mach, size: nat): Step {
    if !CanPop(m, size) || m.fp != Current(m).fp || size > 2 then Unsafe
    else
      var h := m.live[m.fp];
      var back := m.live[m.fp + 1];
      var result := m.live[|m.live| - size..];
      var outer := m.calls[..|m.calls| - 1];
      if HeaderLength(h) > m.fp || HeaderParams(h) > m.fp then Unsafe
      else
        var fp := m.fp - HeaderLength(h);
        var start := m.fp - HeaderParams(h);
        var module_ := if HeaderDelta(h) != 0 then ModuleBack(m.module_, HeaderDelta(h)) else m.module_;
        if module_ >= |s.modules| then Unsafe
        else if back == SENTINEL then
          if outer == [] then Finished(result, start, fp, m.trace) else Unsafe
        else
          var live := m.live[..start] + result;
          if outer == [] || outer[|outer| - 1].fp != fp then Unsafe
          else
            var a := outer[|outer| - 1];
            if a.Base() <= |live| <= a.Limit() then Next(Mach(AfterCall(back), fp, live, module_, m.trace, outer))
            else Unsafe
  }

  function ZeroWords(n: nat): (ws: seq<U32>)
    ensures |ws| == n
  {
    if n == 0 then [] else ZeroWords(n - 1) + [0]
  }

  /** `call_impl`, after the module switch of `call_impl_enter_module`. */
  function StepCall(s: Store, m: Mach, module_: nat, index: nat): Step {
    if module_ >= |s.modules| || index >= |s.modules[module_].functions| then Unsafe
    else
      var f := s.modules[module_].functions[index];
      if s.stackWords < |m.live| + f.RequiredWords() then Trapped(StackOverflow, m.trace)
      else if f.ParamWords() > 0xFF || !CanPop(m, f.ParamWords()) || m.fp != Current(m).fp then Unsafe
      else if |m.live| - m.fp > 0xFFFF || !(0 <= m.pc < 0x8000_0000) then Unsafe
      else
        var header := Header(|m.live| - m.fp, ModuleDelta(m.module_, module_), f.ParamWords());
        Next(EnterCall(m, f, header, m.pc, module_, index))
  }

  /** The state in which a called function starts. */
  function EnterCall(m: Mach, f: Func, header: U32, back: U32, module_: nat, index: nat): Mach {
    Mach(f.entry, |m.live|, m.live + [header, back] + ZeroWords(f.LocalWords()), module_, m.trace,
          m.calls + [Activation(module_, index, |m.live|, f.ParamWords(), f.LocalWords(), f.usage)])
  }

  /** `br_impl`; the slot lies `offset` words after the instruction's start. */
  function StepBranch(s: Store, m: Mach, offset: nat, slot: U32): Step {
    if Arity(slot) > 2 then Unsafe
    else if Jump(slot) == 0 then StepReturn(s, m, Arity(slot))
    else if !CanPop(m, Depth(slot)) || !CanPop(m, Arity(slot)) then Unsafe
    else Replace(m, Depth(slot), m.live[|m.live| - Arity(slot)..], m.pc + offset + Jump(slot))
  }

  // ----- host calls -----

  /** Read arguments off the stack, first argument deepest. */
  function ReadValues(ts: seq<ValType>, ws: seq<U32>): (vs: seq<Value>)
    requires |ws| == WordLen(ts)
    decreases |ts|
  {
    if ts == [] then []
    else
      var k := |ts| - 1;
      var w := Width(ts[k]);
      ReadValues(ts[..k], ws[..|ws| - w]) + [FromWords(ts[k], ws[|ws| - w..])]
  }

  /** `resume`: a value of the awaited type is pushed, anything else changes nothing. */
  function Resume(m: Mach, want: ResultType, v: Option<Value>): Step {
    if (if v.None? then None else Some(v.value.Type())) != want then Paused(m, want)
    else Replace(m, 0, if v.None? then [] else ToWords(v.value), m.pc)
  }

  /** `call_host`. */
  function StepHost(s: Store, h: nat, x: nat, m: Mach, next: int): Step {
    if h >= |s.hosts| || x >= |s.hosts[h]| then Unsafe
    else
      var sig := s.hosts[h][x];
      var n := WordLen(sig.params);
      if !CanPop(m, n) then Unsafe
      else
        var trace := m.trace + [HostCall(h, x, ReadValues(sig.params, m.live[|m.live| - n..]))];
        var m1 := m.(live := Below(m, n), pc := next, trace := trace);
        match s.reply(trace)
        case HostTrap => Trapped(TrapReason.Host, trace)
        case Pause(_) => Paused(m1, sig.result)
        case Continue(v) =>
          // A mistyped answer is a panic.
          if (if v.None? then None else Some(v.value.Type())) != sig.result then Unsafe
          else Replace(m1, 0, if v.None? then [] else ToWords(v.value), next)
  }

  // ----- steps -----

  /** The handler of instruction `i`, whose next instruction is at `next`. */
  function StepInstr(s: Store, i: Instr, next: int, m: Mach): Step {
    match i
    case Unreachable => Trapped(TrapReason.Unreachable, m.trace)
    case Const(v) => Replace(m, 0, ToWords(v), next)
    case Num(op) => StepNum(op, m, next)
    case Drop(t) => Replace(m, Width(t), [], next)
    case Select(t) => StepSelect(t, m, next)
    case LocalGet(t, o) => StepLocalGet(t, o, m, next)
    case LocalSet(t, o) => StepLocalSet(t, o, m, next)
    case LocalTee(t, o) => StepLocalTee(t, o, m, next)
    case Return(n) => StepReturn(s, m, n)
    case Call(x) => StepCall(s, m, m.module_, x)
    case CallExtern(k, x) => StepCall(s, m, k, x)
    case CallHost(h, x) => StepHost(s, h, x, m, next)
    case Br(slot) => StepBranch(s, m, 1, slot)
    case BrIf(slot) =>
      if !CanPop(m, 1) then Unsafe
      else
        var m1 := m.(live := Below(m, 1));
        if m.live[|m.live| - 1] != 0 then StepBranch(s, m1, 1, slot) else Next(m1.(pc := next))
    case If(slot) =>
      if !CanPop(m, 1) then Unsafe
      else
        var m1 := m.(live := Below(m, 1));
        if m.live[|m.live| - 1] == 0 then Next(m1.(pc := m.pc + 1 + Jump(slot))) else Next(m1.(pc := next))
    case BrTable(slots) =>
      if !CanPop(m, 1) || slots == [] then Unsafe
      else
        var m1 := m.(live := Below(m, 1));
        var n := |slots| - 1;
        var k := if m.live[|m.live| - 1] < n then m.live[|m.live| - 1] else n;
        StepBranch(s, m1, (if n >= 0xFF then 2 else 1) + 2 * k, slots[k])
  }

  /** One instruction (`visit_instruction` with the interpreter's handlers). */
  function StepOnce(s: Store, code: seq<Word>, m: Mach): Step {
    if m.pc < 0 then Unsafe
    else
      match Decode(code, m.pc)
      case OffEnd => Unsafe
      case Malformed => Trapped(MalformedIr, m.trace)
      case Instr(i, next) => StepInstr(s, i, next, m)
  }

  /** One instruction; the embedding ends a pause by resuming with the host's value. */
  function Advance(s: Store, code: seq<Word>, m: Mach): Step {
    var r := StepOnce(s, code, m);
    if !r.Paused? then r
    else
      var reply := s.reply(r.m.trace);
      if !reply.Pause? then Unsafe else Resume(r.m, r.want, reply.result)
  }

  /** Up to `n` instructions. */
  function Run(s: Store, code: seq<Word>, m: Mach, n: nat): Step
    decreases n
  {
    if n == 0 then Next(m)
    else
      var r := Advance(s, code, m);
      if r.Next? then Run(s, code, r.m, n - 1) else r
  }

  /** Fuel transparency: running in two portions is running once. */
  lemma {:induction false} RunSplit(s: Store, code: seq<Word>, m: Mach, a: nat, b: nat)
    ensures Run(s, code, m, a + b) ==
            (var r := Run(s, code, m, a); if r.Next? then Run(s, code, r.m, b) else r)
    decreases a
  {
    hide Advance;
    if a > 0 {
      var r := Advance(s, code, m);
      if r.Next? { RunSplit(s, code, r.m, a - 1, b); }
    }
  }

  /** `invoke` on an idle engine, once the arguments are checked against the signature. */
  function Invoke(s: Store, module_: nat, index: nat, args: seq<Value>): Step {
    if module_ >= |s.modules| || index >= |s.modules[module_].functions| then Unsafe
    else
      var f := s.modules[module_].functions[index];
      var n := f.ParamWords();
      if TypesOf(args) != f.sig.params || n > 0xFF then Unsafe
      else if s.stackWords < n + f.RequiredWords() then Trapped(StackOverflow, [])
      else
        Next(EnterCall(Mach(SENTINEL, 0, Flat(args), module_, [], []), f, Header(n, 0, n), SENTINEL, module_, index))
  }
}
