/** The frames on the stack: whatever code runs, as long as the machine is not unsafe the saved frames
    form a finite chain down to the entry frame, and a call, a balanced run and a return restore the
    caller (src/interpreter.rs, `call_impl_enter_module`, `call_impl`, `return_`). */
module Activations {
  import opened Values
  import opened Label
  import opened Ir
  import opened Wasm
  import opened Machine

  /** Where the arguments of a call start. */
  function ArgStart(a: Activation): int { a.fp - a.params }

  /** The header of frame `k` leads to the frame before it; only the entry frame returns out. */
  predicate LinkedBack(m: Mach, k: nat)
    requires k < |m.calls|
  {
    var a := m.calls[k];
    && a.fp + 2 <= |m.live| && a.params <= a.fp
    && HeaderParams(m.live[a.fp]) == a.params
    && if k == 0 then m.live[a.fp + 1] == SENTINEL && HeaderLength(m.live[a.fp]) == a.fp == a.params
       else m.live[a.fp + 1] < 0x8000_0000 && HeaderLength(m.live[a.fp]) == a.fp - m.calls[k - 1].fp
  }

  /** Frame `j` ends below the arguments of every later frame `k`. */
  predicate Nested(m: Mach, j: nat, k: nat)
    requires j < k < |m.calls|
  {
    m.calls[j].Base() <= ArgStart(m.calls[k]) && m.calls[j].fp <= m.calls[k].fp
  }

  predicate FramesOk(s: Store, m: Mach) {
    && m.calls != [] && m.fp == Current(m).fp
    && Current(m).Base() <= |m.live| <= Current(m).Limit()
    && m.module_ < |s.modules| <= 0x100
    && (forall k :: 0 <= k < |m.calls| ==> m.calls[k].Limit() <= s.stackWords)
    && (forall k :: 0 <= k < |m.calls| ==> LinkedBack(m, k))
    && (forall j, k :: 0 <= j < k < |m.calls| ==> Nested(m, j, k))
  }

  // ----- three kinds of steps -----

  /** The parts of the stack that steps inside a frame leave alone: everything below its arguments,
      and its header. */
  predicate Outside(a: Activation, k: int) { 0 <= k < ArgStart(a) || k == a.fp || k == a.fp + 1 }

  /** A step inside the current frame. */
  predicate Inside(m: Mach, m': Mach) {
    && m.calls != [] && m'.calls == m.calls && m'.fp == m.fp && m'.module_ == m.module_
    && Current(m).Base() <= |m'.live| <= Current(m).Limit()
    && forall k :: 0 <= k < |m.live| && Outside(Current(m), k) ==> k < |m'.live| && m'.live[k] == m.live[k]
  }

  /** A call. */
  predicate Enters(s: Store, m: Mach, m': Mach) {
    && m.calls != [] && m'.calls != [] && m'.calls[..|m'.calls| - 1] == m.calls
    && var a := m'.calls[|m'.calls| - 1];
       && a.fp == |m.live| && m'.fp == |m.live| && |m'.live| == a.Base() && a.Limit() <= s.stackWords
       && Current(m).Base() <= ArgStart(a)
       && a.params <= 0xFF && 0 <= |m.live| - m.fp <= 0xFFFF
       && m'.module_ < |s.modules| && 0 <= m.pc < 0x8000_0000
       && m'.live[..|m.live|] == m.live
       && m'.live[a.fp] == Header(|m.live| - m.fp, ModuleDelta(m.module_, m'.module_), a.params)
       && m'.live[a.fp + 1] == m.pc
  }

  /** A return. */
  predicate Leaves(s: Store, m: Mach, m': Mach) {
    && |m.calls| >= 2 && m'.calls == m.calls[..|m.calls| - 1]
    && var a := m.calls[|m.calls| - 1];
       && a.fp + 2 <= |m.live| && 0 <= ArgStart(a) <= |m'.live|
       && m'.fp == m.fp - HeaderLength(m.live[a.fp])
       && m'.pc == AfterCall(m.live[a.fp + 1])
       && m'.module_ == Unwound(m.module_, m.live[a.fp])
       && m'.live[..ArgStart(a)] == m.live[..ArgStart(a)]
       && m'.module_ < |s.modules|
       && m'.fp == Current(m').fp && Current(m').Base() <= |m'.live| <= Current(m').Limit()
  }

  /** The module a header leads back to. */
  function Unwound(current: nat, header: U32): nat {
    if HeaderDelta(header) != 0 then ModuleBack(current, HeaderDelta(header)) else current
  }

  predicate Kind(s: Store, m: Mach, m': Mach) {
    Inside(m, m') || Enters(s, m, m') || Leaves(s, m, m')
  }

  lemma ReplaceInside(m: Mach, n: nat, ws: seq<U32>, pc: int, m': Mach)
    requires Replace(m, n, ws, pc) == Next(m') && 0 <= ArgStart(Current(m))
    ensures Inside(m, m')
  {
  }

  lemma ReturnLeaves(s: Store, m: Mach, size: nat, m': Mach)
    requires FramesOk(s, m) && StepReturn(s, m, size) == Next(m')
    ensures Leaves(s, m, m')
  {
    assert LinkedBack(m, |m.calls| - 1);
    hide HeaderLength, HeaderParams, HeaderDelta, ModuleBack;
    var start := m.fp - HeaderParams(m.live[m.fp]);
    assert (m.live[..start] + m.live[|m.live| - size..])[..start] == m.live[..start];
  }

  lemma CallEnters(s: Store, m: Mach, module_: nat, index: nat, m': Mach)
    requires FramesOk(s, m) && StepCall(s, m, module_, index) == Next(m')
    ensures Enters(s, m, m')
  {
    hide Header, ModuleDelta;
  }

  lemma BranchKind(s: Store, m: Mach, offset: nat, slot: U32, m': Mach)
    requires FramesOk(s, m) && StepBranch(s, m, offset, slot) == Next(m')
    ensures Kind(s, m, m')
  {
    assert LinkedBack(m, |m.calls| - 1);
    hide Jump, Label.Arity, Depth, Inside, Enters, Leaves, Replace, StepReturn;
    if Jump(slot) == 0 {
      ReturnLeaves(s, m, Label.Arity(slot), m');
    } else {
      ReplaceInside(m, Depth(slot), m.live[|m.live| - Label.Arity(slot)..], m.pc + offset + Jump(slot), m');
    }
  }

  /** Popping operands keeps the frames. */
  lemma PopFrames(s: Store, m: Mach, k: nat)
    requires FramesOk(s, m) && CanPop(m, k)
    ensures FramesOk(s, m.(live := Below(m, k))) && 0 <= ArgStart(Current(m))
    ensures forall i :: Outside(Current(m), i) && i < |m.live| ==>
              i < |m.live| - k && m.live[i] == Below(m, k)[i]
  {
    var m1 := m.(live := Below(m, k));
    assert LinkedBack(m, |m.calls| - 1);
    forall i | 0 <= i < |m.calls| ensures LinkedBack(m1, i) {
      assert LinkedBack(m, i);
      if i < |m.calls| - 1 { assert Nested(m, i, |m.calls| - 1); }
    }
    forall i, j | 0 <= i < j < |m.calls| ensures Nested(m1, i, j) {
      assert Nested(m, i, j);
    }
  }

  /** A step after popping operands is a step of the same kind before. */
  lemma KindBefore(s: Store, m: Mach, k: nat, m': Mach)
    requires FramesOk(s, m) && CanPop(m, k) && Kind(s, m.(live := Below(m, k)), m')
    requires !Enters(s, m.(live := Below(m, k)), m')
    ensures Inside(m, m') || Leaves(s, m, m')
  {
    PopFrames(s, m, k);
  }

  lemma LocalInside(m: Mach, t: ValType, offset: int, next: int, m': Mach)
    requires m.calls != [] && 0 <= ArgStart(Current(m)) && Current(m).Base() <= |m.live| <= Current(m).Limit()
    requires StepLocalTee(t, offset, m, next) == Next(m')
    ensures Inside(m, m') && |m'.live| == |m.live|
  {
    var w := Width(t);
    var a := m.fp + offset;
    var ws := m.live[|m.live| - w..];
    assert m'.live == m.live[..a] + ws + m.live[a + |ws|..];
  }

  lemma SetInside(m: Mach, t: ValType, offset: int, next: int, m': Mach)
    requires m.calls != [] && 0 <= ArgStart(Current(m)) && Current(m).Base() <= |m.live| <= Current(m).Limit()
    requires StepLocalSet(t, offset, m, next) == Next(m')
    ensures Inside(m, m')
  {
    hide Replace, StepLocalTee;
    var m1 := StepLocalTee(t, offset, m, next).m;
    LocalInside(m, t, offset, next, m1);
    ReplaceInside(m1, Width(t), [], next, m');
    InsideTwice(m, m1, m');
  }

  lemma InsideTwice(m: Mach, m1: Mach, m': Mach)
    requires Inside(m, m1) && Inside(m1, m')
    ensures Inside(m, m')
  {
  }

  /** Instructions that stay in their frame. */
  lemma InlineKind(s: Store, i: Instr, next: int, m: Mach, m': Mach)
    requires FramesOk(s, m) && StepInstr(s, i, next, m) == Next(m')
    requires i.Const? || i.Num? || i.Drop? || i.Select? || i.LocalGet? || i.LocalSet? || i.LocalTee?
    ensures Inside(m, m')
  {
    hide Inside, Replace, CanPop, StepLocalGet, StepLocalSet, StepLocalTee, StepNum, StepSelect, FramesOk, LinkedBack;
    FramesFacts(s, m);
    if i.Const? { ReplaceInside(m, 0, ToWords(i.value), next, m'); }
    else if i.Num? { NumInside(i.op, m, next, m'); }
    else if i.Drop? { ReplaceInside(m, Width(i.ty), [], next, m'); }
    else if i.Select? { SelectInside(i.ty, m, next, m'); }
    else if i.LocalGet? { GetInside(m, i.ty, i.offset, next, m'); }
    else if i.LocalSet? { SetInside(m, i.ty, i.offset, next, m'); }
    else { LocalInside(m, i.ty, i.offset, next, m'); }
  }

  lemma NumInside(op: NumOp, m: Mach, next: int, m': Mach)
    requires m.calls != [] && 0 <= ArgStart(Current(m)) && StepNum(op, m, next) == Next(m')
    ensures Inside(m, m')
  {
    hide Inside, Replace, CanPop, NumWords, WordLen;
    var n := WordLen(NumParams(op));
    CanPopFits(m, n);
    ReplaceInside(m, n, NumWords(op, m.live[|m.live| - n..]).value, next, m');
  }

  lemma GetInside(m: Mach, t: ValType, offset: int, next: int, m': Mach)
    requires m.calls != [] && 0 <= ArgStart(Current(m)) && StepLocalGet(t, offset, m, next) == Next(m')
    ensures Inside(m, m')
  {
    hide Inside, Replace, CanAccess;
    CanAccessFits(m, offset, Width(t));
    ReplaceInside(m, 0, m.live[m.fp + offset..m.fp + offset + Width(t)], next, m');
  }

  lemma FramesFacts(s: Store, m: Mach)
    requires FramesOk(s, m)
    ensures m.calls != [] && 0 <= ArgStart(Current(m)) && Current(m).Base() <= |m.live| <= Current(m).Limit()
  {
    assert LinkedBack(m, |m.calls| - 1);
  }

  lemma CanPopFits(m: Mach, n: nat)
    ensures CanPop(m, n) ==> n <= |m.live|
  {
  }

  lemma CanAccessFits(m: Mach, offset: int, w: nat)
    ensures CanAccess(m, offset, w) ==> 0 <= m.fp + offset && m.fp + offset + w <= |m.live|
  {
  }

  lemma SelectInside(t: ValType, m: Mach, next: int, m': Mach)
    requires StepSelect(t, m, next) == Next(m') && m.calls != [] && 0 <= ArgStart(Current(m))
    ensures Inside(m, m')
  {
    hide Inside, Replace;
    var w := Width(t);
    var n := |m.live|;
    if m.live[n - 1] != 0 {
      ReplaceInside(m, w + 1, [], next, m');
    } else {
      ReplaceInside(m, 2 * w + 1, m.live[n - 1 - w..n - 1], next, m');
    }
  }

  /** `br_if` and `br_table`: a branch after the condition or index is popped. */
  lemma PopBranchKind(s: Store, m: Mach, offset: nat, slot: U32, m': Mach)
    requires FramesOk(s, m) && CanPop(m, 1) && StepBranch(s, m.(live := Below(m, 1)), offset, slot) == Next(m')
    ensures Inside(m, m') || Leaves(s, m, m')
  {
    PopFrames(s, m, 1);
    var m1 := m.(live := Below(m, 1));
    hide FramesOk, StepBranch, Jump, StepReturn;
    BranchKind(s, m1, offset, slot, m');
    NotEntered(s, m1, offset, slot, m');
    KindBefore(s, m, 1, m');
  }

  lemma NotEntered(s: Store, m: Mach, offset: nat, slot: U32, m': Mach)
    requires StepBranch(s, m, offset, slot) == Next(m')
    ensures |m'.calls| <= |m.calls|
  {
    hide Jump, Label.Arity, Depth, HeaderDelta, HeaderLength, HeaderParams;
  }

  lemma ControlKind(s: Store, i: Instr, next: int, m: Mach, m': Mach)
    requires FramesOk(s, m) && StepInstr(s, i, next, m) == Next(m')
    requires i.Br? || i.BrIf? || i.BrTable? || i.If? || i.Return? || i.Call? || i.CallExtern?
    ensures Kind(s, m, m')
  {
    hide FramesOk, StepBranch, StepReturn, StepCall, Enters, Leaves, Jump, CanPop;
    if i.Br? { BranchKind(s, m, 1, i.slot, m'); }
    else if i.Return? { ReturnLeaves(s, m, i.size, m'); }
    else if i.Call? { CallEnters(s, m, m.module_, i.index, m'); }
    else if i.CallExtern? { CallEnters(s, m, i.module_, i.index, m'); }
    else if i.If? { PopFrames(s, m, 1); PopInside(s, m, m'); }
    else if i.BrIf? {
      CanPopFits(m, 1);
      if m.live[|m.live| - 1] != 0 { PopBranchKind(s, m, 1, i.slot, m'); }
      else { PopFrames(s, m, 1); PopInside(s, m, m'); }
    }
    else {
      CanPopFits(m, 1);
      var n := |i.slots| - 1;
      var k := if m.live[|m.live| - 1] < n then m.live[|m.live| - 1] else n;
      PopBranchKind(s, m, (if n >= 0xFF then 2 else 1) + 2 * k, i.slots[k], m');
    }
  }

  lemma PopInside(s: Store, m: Mach, m': Mach)
    requires FramesOk(s, m) && CanPop(m, 1) && m' == m.(live := Below(m, 1), pc := m'.pc)
    ensures Inside(m, m')
  {
    PopFrames(s, m, 1);
  }

  /** A host call, resumed at once if it pauses. */
  lemma HostInside(s: Store, h: nat, x: nat, next: int, m: Mach, m': Mach)
    requires FramesOk(s, m)
    requires var r := StepHost(s, h, x, m, next);
             || r == Next(m')
             || (r.Paused? && exists v :: Resume(r.m, r.want, v) == Next(m'))
    ensures Inside(m, m')
  {
    FramesFacts(s, m);
    hide FramesOk, ReadValues, Replace, Inside;
    var sig := s.hosts[h][x];
    var n := WordLen(sig.params);
    CanPopFits(m, n);
    var trace := m.trace + [HostCall(h, x, ReadValues(sig.params, m.live[|m.live| - n..]))];
    var r := StepHost(s, h, x, m, next);
    var v: Option<Value>;
    if r.Next? {
      v := s.reply(trace).result;
    } else {
      v :| Resume(r.m, r.want, v) == Next(m');
    }
    HostPushInside(s, m, n, trace, next, if v.None? then [] else ToWords(v.value), m');
  }

  lemma HostPushInside(s: Store, m: Mach, n: nat, trace: seq<HostCall>, next: int, ws: seq<U32>, m': Mach)
    requires CanPop(m, n) && 0 <= ArgStart(Current(m))
    requires Replace(m.(live := Below(m, n), pc := next, trace := trace), 0, ws, next) == Next(m')
    ensures Inside(m, m')
  {
  }

  /** Every step of any code is a step inside its frame, a call or a return. */
  lemma StepKind(s: Store, code: seq<Word>, m: Mach, m': Mach)
    requires FramesOk(s, m) && Advance(s, code, m) == Next(m')
    ensures Kind(s, m, m')
  {
    hide FramesOk, Decode, Resume, StepHost, Inside, Enters, Leaves;
    var d := Decode(code, m.pc);
    if d.instr.CallHost? {
      HostInside(s, d.instr.module_, d.instr.index, d.next, m, m');
    } else {
      NotPaused(s, d.instr, d.next, m);
      PlainKind(s, d.instr, d.next, m, m');
    }
  }

  lemma PlainKind(s: Store, i: Instr, next: int, m: Mach, m': Mach)
    requires FramesOk(s, m) && StepInstr(s, i, next, m) == Next(m') && !i.CallHost?
    ensures Kind(s, m, m')
  {
    if i.Br? || i.BrIf? || i.BrTable? || i.If? || i.Return? || i.Call? || i.CallExtern? {
      ControlKind(s, i, next, m, m');
    } else {
      hide FramesOk, StepNum, StepSelect, StepLocalGet, StepLocalSet, StepLocalTee, Replace, Inside, Leaves, Enters;
      InlineKind(s, i, next, m, m');
    }
  }

  lemma NotPaused(s: Store, i: Instr, next: int, m: Mach)
    requires !i.CallHost?
    ensures !StepInstr(s, i, next, m).Paused?
  {
    hide NumWords, CanAccess, CanPop, Jump, Label.Arity, Depth, HeaderDelta, HeaderLength, HeaderParams, EnterCall;
  }

  // ----- the chain of frames -----

  lemma InsideFrames(s: Store, m: Mach, m': Mach)
    requires FramesOk(s, m) && Inside(m, m')
    ensures FramesOk(s, m')
  {
    hide HeaderParams, HeaderLength;
    var n := |m.calls| - 1;
    forall k | 0 <= k < |m.calls| ensures LinkedBack(m', k) {
      assert LinkedBack(m, k);
      if k < n { assert Nested(m, k, n); }
      assert Outside(Current(m), m.calls[k].fp) && Outside(Current(m), m.calls[k].fp + 1);
    }
    forall j, k | 0 <= j < k < |m.calls| ensures Nested(m', j, k) {
      assert Nested(m, j, k);
    }
  }

  lemma OldLink(s: Store, m: Mach, m': Mach, k: nat)
    requires FramesOk(s, m) && Enters(s, m, m') && k < |m.calls|
    ensures k < |m'.calls| && LinkedBack(m', k)
  {
    hide HeaderParams, HeaderLength, Header, ModuleDelta, Nested;
    assert LinkedBack(m, k);
    var low := m'.live[..|m.live|];
    var fp := m.calls[k].fp;
    assert m'.calls[k] == m.calls[k] && (k > 0 ==> m'.calls[k - 1] == m.calls[k - 1]);
    assert low[fp] == m.live[fp] && low[fp + 1] == m.live[fp + 1];
  }

  lemma NewLink(s: Store, m: Mach, m': Mach)
    requires FramesOk(s, m) && Enters(s, m, m')
    ensures |m.calls| < |m'.calls| && LinkedBack(m', |m.calls|)
  {
    HeaderFields(|m.live| - m.fp, ModuleDelta(m.module_, m'.module_), m'.calls[|m.calls|].params);
    hide HeaderParams, HeaderLength, Header, ModuleDelta, Nested;
    assert LinkedBack(m, |m.calls| - 1);
    assert m'.calls[|m.calls| - 1] == m.calls[|m.calls| - 1];
  }

  lemma EntersFrames(s: Store, m: Mach, m': Mach)
    requires FramesOk(s, m) && Enters(s, m, m')
    ensures FramesOk(s, m')
  {
    var n := |m.calls|;
    hide HeaderParams, HeaderLength, Header, ModuleDelta, LinkedBack;
    assert forall k :: 0 <= k < n ==> m'.calls[k] == m.calls[k];
    forall k | 0 <= k <= n ensures LinkedBack(m', k) {
      if k < n { OldLink(s, m, m', k); } else { NewLink(s, m, m'); }
    }
    forall j, k | 0 <= j < k <= n ensures Nested(m', j, k) {
      if k < n {
        assert Nested(m, j, k);
      } else if j < n - 1 {
        assert Nested(m, j, n - 1);
      }
    }
  }

  lemma LeavesFrames(s: Store, m: Mach, m': Mach)
    requires FramesOk(s, m) && Leaves(s, m, m')
    ensures FramesOk(s, m')
  {
    hide HeaderParams, HeaderLength, HeaderDelta, ModuleBack;
    var n := |m.calls| - 1;
    var start := ArgStart(m.calls[n]);
    assert forall k :: 0 <= k < n ==> m'.calls[k] == m.calls[k];
    forall k | 0 <= k < n ensures LinkedBack(m', k) {
      assert LinkedBack(m, k) && Nested(m, k, n);
      var fp := m.calls[k].fp;
      assert m'.live[..start][fp] == m.live[..start][fp] && m'.live[..start][fp + 1] == m.live[..start][fp + 1];
    }
    forall j, k | 0 <= j < k < n ensures Nested(m', j, k) {
      assert Nested(m, j, k);
    }
  }

  /** The frames stay a chain down to the entry frame. */
  lemma StepFrames(s: Store, code: seq<Word>, m: Mach, m': Mach)
    requires FramesOk(s, m) && Advance(s, code, m) == Next(m')
    ensures FramesOk(s, m')
  {
    hide FramesOk, Inside, Enters, Leaves, Advance;
    StepKind(s, code, m, m');
    if Inside(m, m') {
      InsideFrames(s, m, m');
    } else if Enters(s, m, m') {
      EntersFrames(s, m, m');
    } else {
      LeavesFrames(s, m, m');
    }
  }

  /** Over whole runs of any code. */
  lemma {:induction false} RunFrames(s: Store, code: seq<Word>, m: Mach, n: nat)
    requires FramesOk(s, m)
    ensures Run(s, code, m, n).Next? ==> FramesOk(s, Run(s, code, m, n).m)
    decreases n
  {
    hide FramesOk, Advance;
    if n > 0 {
      var r := Advance(s, code, m);
      if r.Next? {
        StepFrames(s, code, m, r.m);
        RunFrames(s, code, r.m, n - 1);
      }
    }
  }

  /** An invocation starts the chain with its one entry frame. */
  lemma InvokeFrames(s: Store, module_: nat, index: nat, args: seq<Value>)
    requires |s.modules| <= 0x100 && Invoke(s, module_, index, args).Next?
    ensures FramesOk(s, Invoke(s, module_, index, args).m)
  {
    hide Flat, Header, HeaderLength, HeaderParams, HeaderDelta, WordLen;
    FlatLen(args);
    var f := s.modules[module_].functions[index];
    HeaderFields(f.ParamWords(), 0, f.ParamWords());
    var m := Invoke(s, module_, index, args).m;
    assert m.calls == [Activation(module_, index, |Flat(args)|, f.ParamWords(), f.LocalWords(), f.usage)];
    assert LinkedBack(m, 0);
  }

  // ----- a call, a balanced run and a return -----

  /** The module frame `k` runs in, found by unwinding the frames above it. */
  function ModuleOf(m: Mach, k: nat): nat
    requires k < |m.calls| && forall i :: 0 <= i < |m.calls| ==> m.calls[i].fp < |m.live|
    decreases |m.calls| - k
  {
    if k == |m.calls| - 1 then m.module_ else Unwound(ModuleOf(m, k + 1), m.live[m.calls[k + 1].fp])
  }

  /** Nothing about frame `d`, the words under its arguments or the frames before it has changed. */
  predicate Untouched(m: Mach, m': Mach, d: nat) {
    && d < |m.calls| && d < |m'.calls|
    && (forall i :: 0 <= i < |m.calls| ==> m.calls[i].fp < |m.live|)
    && (forall i :: 0 <= i < |m'.calls| ==> m'.calls[i].fp < |m'.live|)
    && m'.calls[..d + 1] == m.calls[..d + 1]
    && ModuleOf(m', d) == ModuleOf(m, d)
    && forall k :: 0 <= k < |m.live| && Outside(m.calls[d], k) ==> k < |m'.live| && m'.live[k] == m.live[k]
  }

  lemma FramesFp(s: Store, m: Mach)
    requires FramesOk(s, m)
    ensures forall i :: 0 <= i < |m.calls| ==> m.calls[i].fp + 2 <= |m.live| && 0 <= ArgStart(m.calls[i])
  {
    forall i | 0 <= i < |m.calls| ensures m.calls[i].fp + 2 <= |m.live| && 0 <= ArgStart(m.calls[i]) {
      assert LinkedBack(m, i);
    }
  }

  /** Equal headers unwind to equal modules. */
  lemma {:induction false} ModuleSame(m: Mach, m': Mach, k: nat, n: nat)
    requires k <= n < |m.calls| && n < |m'.calls| && m'.calls[..n + 1] == m.calls[..n + 1]
    requires forall i :: 0 <= i < |m.calls| ==> m.calls[i].fp < |m.live|
    requires forall i :: 0 <= i < |m'.calls| ==> m'.calls[i].fp < |m'.live|
    requires ModuleOf(m', n) == ModuleOf(m, n)
    requires forall i :: 0 <= i <= n ==> m'.live[m.calls[i].fp] == m.live[m.calls[i].fp]
    ensures ModuleOf(m', k) == ModuleOf(m, k)
    decreases n - k
  {
    hide Unwound;
    if k < n {
      assert m'.calls[k + 1] == m'.calls[..n + 1][k + 1] == m.calls[k + 1];
      ModuleSame(m, m', k + 1, n);
    }
  }

  /** What lies outside frame `d` lies outside every later frame. */
  lemma OutsideLater(s: Store, m: Mach, d: nat, n: nat, k: int)
    requires FramesOk(s, m) && d < n < |m.calls| && Outside(m.calls[d], k)
    ensures 0 <= k < ArgStart(m.calls[n])
  {
    assert LinkedBack(m, d) && Nested(m, d, n);
  }

  lemma InsideUntouched(s: Store, m: Mach, m': Mach, d: nat)
    requires FramesOk(s, m) && FramesOk(s, m') && Inside(m, m') && d < |m.calls|
    ensures Untouched(m, m', d)
  {
    FramesFp(s, m);
    FramesFp(s, m');
    var n := |m.calls| - 1;
    forall k | 0 <= k < |m.live| && Outside(m.calls[d], k) ensures k < |m'.live| && m'.live[k] == m.live[k] {
      if d < n { OutsideLater(s, m, d, n, k); }
    }
    forall i | 0 <= i <= n ensures m'.live[m.calls[i].fp] == m.live[m.calls[i].fp] {
      if i < n { OutsideLater(s, m, i, n, m.calls[i].fp); }
    }
    ModuleSame(m, m', d, n);
  }

  lemma EntersUntouched(s: Store, m: Mach, m': Mach, d: nat)
    requires FramesOk(s, m) && FramesOk(s, m') && Enters(s, m, m') && d < |m.calls|
    ensures Untouched(m, m', d)
  {
    FramesFp(s, m);
    FramesFp(s, m');
    var n := |m.calls| - 1;
    HeaderFields(|m.live| - m.fp, ModuleDelta(m.module_, m'.module_), m'.calls[n + 1].params);
    ModuleThereAndBack(m.module_, m'.module_);
    hide Header, HeaderDelta, HeaderLength, HeaderParams, ModuleBack, ModuleDelta, FramesOk;
    assert ModuleOf(m', n + 1) == m'.module_;
    assert m'.calls[..n + 1] == m.calls;
    assert m'.calls[..d + 1] == m.calls[..d + 1];
    forall k | 0 <= k < |m.live| ensures m'.live[k] == m.live[k] {
      assert m'.live[..|m.live|][k] == m.live[k];
    }
    assert ModuleOf(m', n) == m.module_;
    ModuleSame(m, m', d, n);
  }

  lemma LeavesUntouched(s: Store, m: Mach, m': Mach, d: nat)
    requires FramesOk(s, m) && FramesOk(s, m') && Leaves(s, m, m') && d < |m'.calls|
    ensures Untouched(m, m', d)
  {
    FramesFp(s, m);
    FramesFp(s, m');
    var n := |m.calls| - 1;
    var start := ArgStart(m.calls[n]);
    hide HeaderDelta, HeaderLength, HeaderParams, ModuleBack;
    forall k | 0 <= k < start ensures m'.live[k] == m.live[k] {
      assert m'.live[..start][k] == m.live[..start][k];
    }
    forall k | 0 <= k < |m.live| && Outside(m.calls[d], k) ensures k < |m'.live| && m'.live[k] == m.live[k] {
      OutsideLater(s, m, d, n, k);
    }
    forall i | 0 <= i < n ensures m'.live[m.calls[i].fp] == m.live[m.calls[i].fp] {
      OutsideLater(s, m, i, n, m.calls[i].fp);
    }
    assert ModuleOf(m, n) == m.module_;
    assert ModuleOf(m', n - 1) == m'.module_;
    ModuleSame(m, m', d, n - 1);
  }

  /** A step that does not return out of frame `d` leaves it untouched. */
  lemma StepUntouched(s: Store, code: seq<Word>, m: Mach, m': Mach, d: nat)
    requires FramesOk(s, m) && Advance(s, code, m) == Next(m') && d < |m.calls| && d < |m'.calls|
    ensures FramesOk(s, m') && Untouched(m, m', d)
  {
    hide FramesOk, Inside, Enters, Leaves, Advance, Untouched;
    StepFrames(s, code, m, m');
    StepKind(s, code, m, m');
    if Inside(m, m') {
      InsideUntouched(s, m, m', d);
    } else if Enters(s, m, m') {
      EntersUntouched(s, m, m', d);
    } else {
      LeavesUntouched(s, m, m', d);
    }
  }

  /** `n` steps that never return out of frame `d`. */
  predicate Balanced(s: Store, code: seq<Word>, m: Mach, n: nat, d: nat)
    decreases n
  {
    d < |m.calls| && (n > 0 ==> var r := Advance(s, code, m); r.Next? && Balanced(s, code, r.m, n - 1, d))
  }

  lemma UntouchedTwice(m: Mach, m1: Mach, m2: Mach, d: nat)
    requires Untouched(m, m1, d) && Untouched(m1, m2, d)
    ensures Untouched(m, m2, d)
  {
    assert m1.calls[d] == m1.calls[..d + 1][d] == m.calls[..d + 1][d];
    hide ModuleOf;
  }

  lemma {:induction false} RunUntouched(s: Store, code: seq<Word>, m: Mach, n: nat, d: nat)
    requires FramesOk(s, m) && Balanced(s, code, m, n, d)
    ensures Run(s, code, m, n).Next?
    ensures FramesOk(s, Run(s, code, m, n).m) && Untouched(m, Run(s, code, m, n).m, d)
    decreases n
  {
    hide FramesOk, Advance, Untouched;
    if n == 0 {
      UntouchedSame(s, m, d);
    } else {
      var m1 := Advance(s, code, m).m;
      StepUntouched(s, code, m, m1, d);
      RunUntouched(s, code, m1, n - 1, d);
      UntouchedTwice(m, m1, Run(s, code, m1, n - 1).m, d);
    }
  }

  lemma UntouchedSame(s: Store, m: Mach, d: nat)
    requires FramesOk(s, m) && d < |m.calls|
    ensures Untouched(m, m, d)
  {
    FramesFp(s, m);
  }

  /** A call, any balanced run and the matching return: the caller's frame pointer and module are
      back, execution goes on behind the two words of the call, every word below the arguments is
      as it was, and the results stand where the arguments stood. */
  lemma CallRunReturn(
    s: Store, code: seq<Word>, m: Mach, module_: nat, index: nat, m1: Mach, n: nat, m2: Mach, size: nat, m3: Mach)
    requires FramesOk(s, m) && StepCall(s, m, module_, index) == Next(m1)
    requires Balanced(s, code, m1, n, |m.calls|) && Run(s, code, m1, n) == Next(m2)
    requires |m2.calls| == |m.calls| + 1 && StepReturn(s, m2, size) == Next(m3)
    ensures m3.fp == m.fp && m3.module_ == m.module_ && m3.pc == m.pc + 2 && m3.calls == m.calls
    ensures var p := s.modules[module_].functions[index].ParamWords();
            p <= |m.live| && size <= |m2.live| && m3.live == Below(m, p) + m2.live[|m2.live| - size..]
  {
    hide FramesOk, Enters, Run, Balanced, Untouched, StepReturn, LinkedBack;
    CallEnters(s, m, module_, index, m1);
    EntersFrames(s, m, m1);
    RunUntouched(s, code, m1, n, |m.calls|);
    BracketWords(s, m, m1, m2);
    ReturnWords(s, m2, size, m3);
    CallParams(s, m, module_, index);
    var p := s.modules[module_].functions[index].ParamWords();
    assert m2.live[..|m.live| - p] == Below(m, p);
  }

  lemma CallParams(s: Store, m: Mach, module_: nat, index: nat)
    requires StepCall(s, m, module_, index).Next?
    ensures var p := s.modules[module_].functions[index].ParamWords();
            p <= |m.live| && StepCall(s, m, module_, index).m.calls[|m.calls|].params == p
  {
    hide Header, ModuleDelta;
  }

  /** The callee's frame when it is about to return. */
  lemma BracketWords(s: Store, m: Mach, m1: Mach, m2: Mach)
    requires FramesOk(s, m) && FramesOk(s, m1) && FramesOk(s, m2) && Enters(s, m, m1) && Untouched(m1, m2, |m.calls|)
    requires |m2.calls| == |m.calls| + 1
    ensures m2.calls == m1.calls && m2.fp == |m.live| && m2.fp + 1 < |m2.live|
    ensures m2.calls[..|m.calls|] == m.calls && 0 <= ArgStart(m1.calls[|m.calls|]) <= |m.live|
    ensures |m2.calls| >= 2
    ensures m2.live[m2.fp + 1] == m.pc && m.pc != SENTINEL
    ensures HeaderLength(m2.live[m2.fp]) == |m.live| - m.fp
    ensures HeaderParams(m2.live[m2.fp]) == m1.calls[|m.calls|].params
    ensures Unwound(m2.module_, m2.live[m2.fp]) == m.module_
    ensures m2.live[..ArgStart(m1.calls[|m.calls|])] == m.live[..ArgStart(m1.calls[|m.calls|])]
  {
    var d := |m.calls|;
    var a := m1.calls[d];
    HeaderFields(|m.live| - m.fp, ModuleDelta(m.module_, m1.module_), a.params);
    ModuleThereAndBack(m.module_, m1.module_);
    hide Header, HeaderDelta, HeaderLength, HeaderParams, ModuleBack, ModuleDelta;
    assert m2.calls == m2.calls[..d + 1] == m1.calls[..d + 1] == m1.calls;
    FramesFp(s, m1);
    FramesFp(s, m2);
    assert Outside(a, a.fp) && Outside(a, a.fp + 1);
    assert m1.calls[..d] == m.calls;
    forall k | 0 <= k < ArgStart(a) ensures m2.live[k] == m.live[k] {
      assert Outside(a, k) && m1.live[..|m.live|][k] == m.live[k];
    }
  }

  /** What `return_` does to the stack. */
  lemma ReturnWords(s: Store, m: Mach, size: nat, m3: Mach)
    requires |m.calls| >= 2 && m.fp + 1 < |m.live| && m.live[m.fp + 1] != SENTINEL && StepReturn(s, m, size) == Next(m3)
    ensures var h := m.live[m.fp];
            && HeaderParams(h) <= m.fp && size <= |m.live|
            && m3 == Mach(AfterCall(m.live[m.fp + 1]), m.fp - HeaderLength(h),
                          m.live[..m.fp - HeaderParams(h)] + m.live[|m.live| - size..],
                          Unwound(m.module_, h), m.trace, m.calls[..|m.calls| - 1])
  {
    hide HeaderDelta, HeaderLength, HeaderParams, ModuleBack;
  }

  // ----- the end of a run -----

  /** Finishing happens in the entry frame and leaves both registers at zero. */
  lemma FinishIdles(s: Store, m: Mach, size: nat)
    requires FramesOk(s, m) && StepReturn(s, m, size).Finished?
    ensures |m.calls| == 1
    ensures StepReturn(s, m, size).sp == 0 && StepReturn(s, m, size).fp == 0
  {
    assert LinkedBack(m, |m.calls| - 1);
    hide HeaderDelta, ModuleBack;
  }

  /** Only a return, or a branch that stands for one, finishes a run. */
  lemma StepIdles(s: Store, code: seq<Word>, m: Mach)
    requires FramesOk(s, m) && StepOnce(s, code, m).Finished?
    ensures StepOnce(s, code, m).sp == 0 && StepOnce(s, code, m).fp == 0
  {
    hide FramesOk, Decode, StepReturn, StepCall, StepHost, StepNum, StepSelect, StepLocalGet, StepLocalSet;
    hide StepLocalTee;
    var d := Decode(code, m.pc);
    var i := d.instr;
    NoneFinish(s, i, d.next, m);
    if i.Return? {
      FinishIdles(s, m, i.size);
    } else if i.Br? {
      BranchIdles(s, m, 1, i.slot);
    } else {
      CanPopFits(m, 1);
      PopFrames(s, m, 1);
      var m1 := m.(live := Below(m, 1));
      if i.BrIf? {
        BranchIdles(s, m1, 1, i.slot);
      } else {
        var n := |i.slots| - 1;
        var k := if m.live[|m.live| - 1] < n then m.live[|m.live| - 1] else n;
        BranchIdles(s, m1, (if n >= 0xFF then 2 else 1) + 2 * k, i.slots[k]);
      }
    }
  }

  lemma BranchIdles(s: Store, m: Mach, offset: nat, slot: U32)
    requires FramesOk(s, m) && StepBranch(s, m, offset, slot).Finished?
    ensures StepBranch(s, m, offset, slot).sp == 0 && StepBranch(s, m, offset, slot).fp == 0
  {
    hide FramesOk, StepReturn, Jump, Label.Arity, Depth;
    FinishIdles(s, m, Label.Arity(slot));
  }

  lemma NoneFinish(s: Store, i: Instr, next: int, m: Mach)
    requires StepInstr(s, i, next, m).Finished?
    ensures i.Return? || i.Br? || i.BrIf? || i.BrTable?
  {
    hide NumWords, CanAccess, CanPop, StepReturn, StepBranch, EnterCall, ReadValues;
  }
}
