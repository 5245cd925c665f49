/** The engine (src/interpreter.rs): one array of stack words and a few registers, updated in place and
    without any check on stack accesses. Wherever the machine of `Machine` is not unsafe, the engine
    does the same. */
module Engine {
  import opened Values
  import opened Label
  import opened Ir
  import opened Wasm
  import opened Machine
  import opened Activations
  import opened Runs
  import opened CodeStore
  import opened WordStack
  import Preservation
  import Locals
  import Text

  /** How a handler ends (`Result<(), InterpreterBreak>`). */
  datatype Break = Going | Done | Trap(reason: TrapReason) | Pause | Panic

  /** `Panic` stands for the panic on a pause while another one is still pending. */
  datatype RunResult = Finished | Trap(reason: TrapReason) | Pause | OutOfFuel | Panic

  /** What a step does to the host result that is owed: only a pause touches it, and panics if there is
      one already. */
  predicate Owing(step: Step, panicked: bool, was: Option<ResultType>, now: Option<ResultType>) {
    if step.Paused? then panicked == was.Some? else !panicked && now == was
  }

  datatype InvokeError = Busy | ParamLenMismatch | StackOverflow | ParamTypeMismatch

  datatype ResumeError = NotPaused | ResultTypeMismatch

  class Engine {
    const s: Store
    const stack: Stack
    var pc: int
    var sp: nat
    var fp: nat
    var module_: nat
    var jumped: bool
    /** The words of the last result (`result`). */
    var result: Option<seq<U32>>
    /** The result a paused host function owes (`host_pause_result`). */
    var owed: Option<ResultType>
    /** The calls the hosts have seen since the invocation. */
    var trace: seq<HostCall>
    ghost var calls: seq<Activation>

    ghost predicate Sized()
      reads this, stack, stack.words
    {
      stack.words.Length == s.stackWords && sp <= stack.words.Length
    }

    /** The engine as a machine state. */
    ghost function View(): Mach
      requires Sized()
      reads this, stack, stack.words
    {
      Mach(pc, fp, stack.Words()[..sp], module_, trace, calls)
    }

    /** Executing: the frames on the stack are a chain, and no jump is pending. */
    ghost predicate Running()
      reads this, stack, stack.words
    {
      Sized() && FramesOk(s, View()) && !jumped
    }

    ghost predicate Idle()
      reads this
    {
      pc == SENTINEL && sp == 0 && fp == 0
    }

    /** A handler has done `step`, where `next` is the next instruction in line. */
    ghost predicate Reached(step: Step, next: int, b: Break)
      reads this, stack, stack.words
    {
      && Sized()
      && match step
         case Next(m) => b.Going? && View().(pc := if jumped then pc else next) == m
         case Paused(m, want) => !jumped && (b.Panic? || (b.Pause? && owed == Some(want) && View().(pc := next) == m))
         case Finished(r, sp', fp', t) =>
           b.Done? && result == Some(r) && sp == sp' && fp == fp' && pc == SENTINEL && jumped && trace == t
         case Trapped(r, t) => b == Break.Trap(r) && trace == t
         case Unsafe => false
    }

    constructor (s: Store)
      ensures Sized() && Idle() && this.s == s && !jumped && result.None? && owed.None?
    {
      this.s := s;
      stack := new Stack(s.stackWords);
      pc, sp, fp, module_ := SENTINEL, 0, 0, 0;
      jumped, result, owed := false, None, None;
      trace, calls := [], [];
    }

    /** Push the words of a value. */
    method PushValue(v: Value)
      requires Sized() && sp + Width(v.Type()) <= stack.words.Length
      modifies this`sp, stack.words
      ensures Sized() && sp == old(sp) + Width(v.Type())
      ensures stack.Words()[..sp] == old(stack.Words()[..sp]) + ToWords(v)
    {
      hide Put, Low32, High32;
      ghost var ws := stack.Words();
      if v.I32? || v.F32? {
        PutOne(ws, sp, v.word);
        stack.WriteU32(sp, v.word);
        sp := sp + 1;
      } else {
        PutTwo(ws, sp, Low32(v.dword), High32(v.dword));
        stack.WriteU64(sp, v.dword);
        sp := sp + 2;
      }
    }

    // ----- in line -----

    /** `i32_const` and the other constants. */
    method Const(v: Value, ghost next: int) returns (b: Break)
      requires Running() && !Replace(View(), 0, ToWords(v), next).Unsafe?
      modifies this`sp, stack.words
      ensures Reached(old(Replace(View(), 0, ToWords(v), next)), next, b)
    {
      hide FramesOk, Replace, ToWords;
      ghost var m := View();
      RoomFor(s, m, 0, ToWords(v), next);
      assert m.live[..|m.live| - 0] == m.live;
      PushValue(v);
      Replaced(m, 0, ToWords(v), next, stack.Words()[..sp]);
      b := Going;
    }

    method Drop(t: ValType, ghost next: int) returns (b: Break)
      requires Running() && !Replace(View(), Width(t), [], next).Unsafe?
      modifies this`sp
      ensures Reached(old(Replace(View(), Width(t), [], next)), next, b)
    {
      hide FramesOk;
      Cut(stack.Words(), sp - Width(t), sp);
      NothingPut(View(), Width(t), next);
      sp := sp - Width(t);
      b := Going;
    }

    method Select(t: ValType, ghost next: int) returns (b: Break)
      requires Running() && !StepSelect(t, View(), next).Unsafe?
      modifies this`sp, stack.words
      ensures Reached(old(StepSelect(t, View(), next)), next, b)
    {
      if t.I32? || t.F32? {
        SelectNarrow(t, next);
      } else {
        SelectWide(t, next);
      }
      b := Going;
    }

    method SelectNarrow(t: ValType, ghost next: int)
      requires Running() && !StepSelect(t, View(), next).Unsafe? && Width(t) == 1
      modifies this`sp, stack.words
      ensures Reached(old(StepSelect(t, View(), next)), next, Going)
    {
      hide Put, FramesOk, Replace, CanPop;
      ghost var (m, ws, top) := (View(), stack.Words(), sp);
      SelectFacts(t, m, next);
      sp := sp - 1;
      var c := stack.ReadU32(sp);
      // Otherwise the first value is already in place.
      if c == 0 {
        var val2 := stack.ReadU32(sp - 1);
        stack.WriteU32(sp - 2, val2);
        PutOne(ws, top - 3, val2);
        Cut(ws, top - 3, top);
        OneWord(m.live, top - 2);
        Replaced(m, 3, [val2], next, stack.Words()[..top - 2]);
      } else {
        Cut(ws, top - 2, top);
        Replaced(m, 2, [], next, stack.Words()[..top - 2]);
      }
      sp := sp - 1;
    }

    method SelectWide(t: ValType, ghost next: int)
      requires Running() && !StepSelect(t, View(), next).Unsafe? && Width(t) == 2
      modifies this`sp, stack.words
      ensures Reached(old(StepSelect(t, View(), next)), next, Going)
    {
      hide Put, FramesOk, Replace, CanPop, Join64, Low32, High32;
      ghost var (m, ws, top) := (View(), stack.Words(), sp);
      SelectFacts(t, m, next);
      sp := sp - 1;
      var c := stack.ReadU32(sp);
      if c == 0 {
        var val2 := stack.ReadU64(sp - 2);
        stack.WriteU64(sp - 4, val2);
        JoinParts(ws[top - 3], ws[top - 2]);
        PutTwo(ws, top - 5, ws[top - 3], ws[top - 2]);
        Cut(ws, top - 5, top);
        TwoWords(m.live, top - 3);
        Replaced(m, 5, [ws[top - 3], ws[top - 2]], next, stack.Words()[..top - 3]);
      } else {
        Cut(ws, top - 3, top);
        Replaced(m, 3, [], next, stack.Words()[..top - 3]);
      }
      sp := sp - 2;
    }

    // ----- numeric instructions -----

    method I32Unary(op: NumOp, ghost next: int) returns (b: Break)
      requires Running() && !StepNum(op, View(), next).Unsafe? && op.I32Eqz?
      modifies stack.words
      ensures Reached(old(StepNum(op, View(), next)), next, b)
    {
      hide Put, FramesOk, Replace, StepNum, WordLen, CanPop;
      ghost var (m, ws, top) := (View(), stack.Words(), sp);
      ghost var r := NumFacts(op, m, next);
      var i := stack.ReadU32(sp - 1);
      var v: U32 := if i == 0 then 1 else 0;
      stack.WriteU32(sp - 1, v);
      PutOne(ws, top - 1, v);
      Cut(ws, top - 1, top);
      Replaced(m, 1, r.value, next, stack.Words()[..top]);
      b := Going;
    }

    method I32Binary(op: NumOp, ghost next: int) returns (b: Break)
      requires Running() && !StepNum(op, View(), next).Unsafe? && (op.I32Add? || op.I32DivU?)
      modifies this`sp, stack.words
      ensures Reached(old(StepNum(op, View(), next)), next, b)
    {
      hide Put, FramesOk, Replace, StepNum, WordLen, CanPop, WrapAdd32;
      ghost var (m, ws, top) := (View(), stack.Words(), sp);
      ghost var r := NumFacts(op, m, next);
      sp := sp - 1;
      var y := stack.ReadU32(sp);
      var x := stack.ReadU32(sp - 1);
      if op.I32DivU? && y == 0 { return Break.Trap(DivideByZero); }
      if op.I32DivU? { DivShrinks(x, y); }
      var v: U32 := if op.I32Add? then WrapAdd32(x, y) else x / y;
      stack.WriteU32(sp - 1, v);
      PutOne(ws, top - 2, v);
      Cut(ws, top - 2, top);
      Replaced(m, 2, r.value, next, stack.Words()[..top - 1]);
      b := Going;
    }

    method I64Test(op: NumOp, ghost next: int) returns (b: Break)
      requires Running() && !StepNum(op, View(), next).Unsafe? && (op.I64Eqz? || op.I64Eq?)
      modifies this`sp, stack.words
      ensures Reached(old(StepNum(op, View(), next)), next, b)
    {
      hide Put, FramesOk, Replace, StepNum, WordLen, CanPop, Join64;
      ghost var (m, ws, top) := (View(), stack.Words(), sp);
      ghost var r := NumFacts(op, m, next);
      if op.I64Eqz? {
        var i := stack.ReadU64(sp - 2);
        sp := sp - 1;
        var v: U32 := if i == 0 then 1 else 0;
        stack.WriteU32(sp - 1, v);
        PutOne(ws, top - 2, v);
        Cut(ws, top - 2, top);
        Replaced(m, 2, r.value, next, stack.Words()[..top - 1]);
      } else {
        var y := stack.ReadU64(sp - 2);
        var x := stack.ReadU64(sp - 4);
        sp := sp - 3;
        var v: U32 := if x == y then 1 else 0;
        stack.WriteU32(sp - 1, v);
        PutOne(ws, top - 4, v);
        Cut(ws, top - 4, top);
        Replaced(m, 4, r.value, next, stack.Words()[..top - 3]);
      }
      b := Going;
    }

    method I64Add(ghost next: int) returns (b: Break)
      requires Running() && !StepNum(NumOp.I64Add, View(), next).Unsafe?
      modifies this`sp, stack.words
      ensures Reached(old(StepNum(NumOp.I64Add, View(), next)), next, b)
    {
      hide Put, FramesOk, Replace, StepNum, WordLen, CanPop, Join64, Low32, High32;
      ghost var (m, ws, top) := (View(), stack.Words(), sp);
      ghost var r := NumFacts(NumOp.I64Add, m, next);
      sp := sp - 2;
      var y: int := stack.ReadU64(sp);
      var x: int := stack.ReadU64(sp - 2);
      var d: U64 := (x + y) % 0x1_0000_0000_0000_0000;
      stack.WriteU64(sp - 2, d);
      PutTwo(ws, top - 4, Low32(d), High32(d));
      Cut(ws, top - 4, top);
      Replaced(m, 4, r.value, next, stack.Words()[..top - 2]);
      b := Going;
    }

    method I32WrapI64(ghost next: int) returns (b: Break)
      requires Running() && !StepNum(NumOp.I32WrapI64, View(), next).Unsafe?
      modifies this`sp, stack.words
      ensures Reached(old(StepNum(NumOp.I32WrapI64, View(), next)), next, b)
    {
      hide Put, FramesOk, Replace, StepNum, WordLen, CanPop, Join64, Low32, High32;
      ghost var (m, ws, top) := (View(), stack.Words(), sp);
      ghost var r := NumFacts(NumOp.I32WrapI64, m, next);
      RoomFor(s, m, 2, r.value, next);
      var d := stack.ReadU64(sp - 2);
      sp := sp - 1;
      stack.WriteU32(sp - 1, Low32(d));
      PutOne(ws, top - 2, Low32(d));
      Cut(ws, top - 2, top);
      Replaced(m, 2, r.value, next, stack.Words()[..top - 1]);
      b := Going;
    }

    method I64ExtendI32U(ghost next: int) returns (b: Break)
      requires Running() && !StepNum(NumOp.I64ExtendI32U, View(), next).Unsafe?
      modifies this`sp, stack.words
      ensures Reached(old(StepNum(NumOp.I64ExtendI32U, View(), next)), next, b)
    {
      hide Put, FramesOk, Replace, StepNum, WordLen, CanPop, Join64, Low32, High32;
      ghost var (m, ws, top) := (View(), stack.Words(), sp);
      ghost var r := NumFacts(NumOp.I64ExtendI32U, m, next);
      RoomFor(s, m, 1, r.value, next);
      var i := stack.ReadU32(sp - 1);
      stack.WriteU64(sp - 1, i);
      sp := sp + 1;
      PutTwo(ws, top - 1, Low32(i), High32(i));
      Cut(ws, top - 1, top);
      Replaced(m, 1, r.value, next, stack.Words()[..top + 1]);
      b := Going;
    }

    method Numeric(op: NumOp, ghost next: int) returns (b: Break)
      requires Running() && !StepNum(op, View(), next).Unsafe?
      modifies this`sp, stack.words
      ensures Reached(old(StepNum(op, View(), next)), next, b)
    {
      hide StepNum;
      match op {
        case I32Eqz => b := I32Unary(op, next);
        case I64Eqz => b := I64Test(op, next);
        case I64Eq => b := I64Test(op, next);
        case I32Add => b := I32Binary(op, next);
        case I32DivU => b := I32Binary(op, next);
        case I64Add => b := I64Add(next);
        case I32WrapI64 => b := I32WrapI64(next);
        case I64ExtendI32U => b := I64ExtendI32U(next);
      }
    }

    // ----- locals -----

    method LocalGet(t: ValType, offset: int, ghost next: int) returns (b: Break)
      requires Running() && !StepLocalGet(t, offset, View(), next).Unsafe?
      modifies this`sp, stack.words
      ensures Reached(old(StepLocalGet(t, offset, View(), next)), next, b)
    {
      hide Put, FramesOk, Replace, Join64, Low32, High32;
      ghost var (m, ws, top) := (View(), stack.Words(), sp);
      var a := fp + offset;
      ghost var w := m.live[a..a + Width(t)];
      RoomFor(s, m, 0, w, next);
      assert m.live == m.live[..|m.live| - 0];
      if t.I32? || t.F32? {
        var v := stack.ReadU32(a);
        stack.WriteU32(sp, v);
        sp := sp + 1;
        OneWord(m.live, a);
        PutOne(ws, top, v);
        Replaced(m, 0, w, next, stack.Words()[..top + 1]);
      } else {
        var d := stack.ReadU64(a);
        stack.WriteU64(sp, d);
        sp := sp + 2;
        TwoWords(m.live, a);
        JoinParts(ws[a], ws[a + 1]);
        PutTwo(ws, top, ws[a], ws[a + 1]);
        Replaced(m, 0, w, next, stack.Words()[..top + 2]);
      }
      b := Going;
    }

    /** Store the words on top of the stack into a local. */
    method StoreLocal(t: ValType, offset: int, ghost next: int)
      requires Running() && !StepLocalTee(t, offset, View(), next).Unsafe?
      modifies stack.words
      ensures Reached(old(StepLocalTee(t, offset, View(), next)), next, Going)
    {
      hide FramesOk, SetWords;
      ghost var live := View().live;
      var a: nat := fp + offset;
      Cut(stack.Words(), sp - Width(t), sp);
      StoreTop(a, Width(t));
    }

    /** Copy the topmost `w` words to `a`, in the frame below them. */
    method StoreTop(a: nat, w: nat)
      requires Sized() && 1 <= w <= 2 && a + w <= sp && w <= sp
      modifies stack.words
      ensures stack.Words()[..sp] == old(SetWords(stack.Words()[..sp], a, stack.Words()[sp - w..sp]))
    {
      hide Put, SetWords, Join64, Low32, High32;
      ghost var ws := stack.Words();
      if w == 1 {
        var v := stack.ReadU32(sp - 1);
        stack.WriteU32(a, v);
        OneWord(ws, sp - 1);
        PutOneInside(ws, a, sp, v);
      } else {
        var d := stack.ReadU64(sp - 2);
        stack.WriteU64(a, d);
        JoinParts(ws[sp - 2], ws[sp - 1]);
        TwoWords(ws, sp - 2);
        PutTwoInside(ws, a, sp, ws[sp - 2], ws[sp - 1]);
      }
    }

    method LocalTee(t: ValType, offset: int, ghost next: int) returns (b: Break)
      requires Running() && !StepLocalTee(t, offset, View(), next).Unsafe?
      modifies stack.words
      ensures Reached(old(StepLocalTee(t, offset, View(), next)), next, b)
    {
      StoreLocal(t, offset, next);
      b := Going;
    }

    method LocalSet(t: ValType, offset: int, ghost next: int) returns (b: Break)
      requires Running() && !StepLocalSet(t, offset, View(), next).Unsafe?
      modifies this`sp, stack.words
      ensures Reached(old(StepLocalSet(t, offset, View(), next)), next, b)
    {
      assert CanPop(View(), Width(t));
      hide StepLocalTee, FramesOk;
      StoreLocal(t, offset, next);
      Cut(stack.Words(), sp - Width(t), sp);
      NothingPut(View(), Width(t), next);
      sp := sp - Width(t);
      b := Going;
    }

    // ----- control -----

    /** `return_`: the results are copied over the arguments, one word at a time. */
    method Return(size: nat, ghost next: int) returns (b: Break)
      requires Running() && !StepReturn(s, View(), size).Unsafe?
      modifies this`sp, this`fp, this`pc, this`module_, this`jumped, this`result, this`calls, stack.words
      ensures Reached(old(StepReturn(s, View(), size)), next, b)
    {
      hide FramesOk, HeaderLength, HeaderParams, HeaderDelta, ModuleBack, StepReturn, Unwound, AfterCall;
      ReturnFacts(s, View(), size);
      var return_pc := stack.ReadU32(fp + 1);
      if return_pc == SENTINEL {
        ReturnOut(size, next);
        b := Break.Done;
      } else {
        ReturnTo(size, return_pc, next);
        b := Going;
      }
    }

    /** Back behind the call. */
    method ReturnTo(size: nat, return_pc: U32, ghost next: int)
      requires Running() && !StepReturn(s, View(), size).Unsafe? && fp + 1 < sp
      requires return_pc == stack.Words()[fp + 1] && return_pc != SENTINEL
      modifies this`sp, this`fp, this`pc, this`module_, this`jumped, this`calls, stack.words
      ensures Reached(old(StepReturn(s, View(), size)), next, Going)
    {
      hide FramesOk, HeaderLength, HeaderParams, HeaderDelta, ModuleBack, StepReturn, Unwound, AfterCall;
      ReturnFacts(s, View(), size);
      ReturnGoesOn(s, View(), size);
      Cut(stack.Words(), sp - size, sp);
      Cut(stack.Words(), fp - HeaderParams(stack.Words()[fp]), sp);
      var start := Unwind(size);
      jumped := true;
      sp := start + size;
      pc := AfterCall(return_pc);
    }

    /** Out of the entry frame. */
    method ReturnOut(size: nat, ghost next: int)
      requires Running() && !StepReturn(s, View(), size).Unsafe? && fp + 1 < sp && stack.Words()[fp + 1] == SENTINEL
      modifies this`sp, this`fp, this`pc, this`module_, this`jumped, this`result, this`calls, stack.words
      ensures Reached(old(StepReturn(s, View(), size)), next, Break.Done)
    {
      hide FramesOk, HeaderLength, HeaderParams, HeaderDelta, ModuleBack, StepReturn, Unwound, AfterCall;
      ReturnFacts(s, View(), size);
      ReturnFinishes(s, View(), size);
      Cut(stack.Words(), sp - size, sp);
      var start := Unwind(size);
      jumped := true;
      Leave(start, size);
    }

    /** Leaving the entry frame: its result words are kept. */
    method Leave(start: nat, size: nat)
      requires Sized() && start + size <= sp && size <= 2
      modifies this`sp, this`pc, this`result
      ensures Sized() && sp == start && pc == SENTINEL && result == Some(stack.Words()[start..start + size])
    {
      sp := start;
      pc := SENTINEL;
      if size == 0 {
        assert stack.Words()[start..start] == [];
        result := Some([]);
      } else if size == 1 {
        var w := stack.ReadU32(sp);
        OneWord(stack.Words(), start);
        result := Some([w]);
      } else {
        var d := stack.ReadU64(sp);
        TwoWords(stack.Words(), start);
        JoinParts(stack.Words()[start], stack.Words()[start + 1]);
        result := Some([Low32(d), High32(d)]);
      }
    }

    /** The part of `return_` that reads the header: results, frame pointer and module. */
    method Unwind(size: nat) returns (start: nat)
      requires Sized() && fp + 2 + size <= sp && calls != []
      requires HeaderParams(stack.Words()[fp]) <= fp && HeaderLength(stack.Words()[fp]) <= fp
      modifies this`fp, this`module_, this`calls, stack.words
      ensures Sized() && start == old(fp - HeaderParams(stack.Words()[fp])) && start + size <= sp
      ensures stack.Words()[..start + size] == old(stack.Words())[..start] + old(stack.Words()[sp - size..sp])
      ensures stack.Words()[start..start + size] == old(stack.Words()[sp - size..sp])
      ensures fp == old(fp - HeaderLength(stack.Words()[fp])) && module_ == old(Unwound(module_, stack.Words()[fp]))
      ensures calls == old(calls[..|calls| - 1])
    {
      hide HeaderLength, HeaderParams, HeaderDelta, ModuleBack;
      var header := stack.ReadU32(fp);
      start := fp - HeaderParams(header);
      CopyDown(start, size);
      fp := fp - HeaderLength(header);
      if HeaderDelta(header) != 0 { module_ := ModuleBack(module_, HeaderDelta(header)); }
      calls := calls[..|calls| - 1];
    }

    /** Copy the topmost `size` words down to `start`. */
    method CopyDown(start: nat, size: nat)
      requires Sized() && start + size <= sp
      modifies stack.words
      ensures stack.Words()[..start + size] == old(stack.Words())[..start] + old(stack.Words()[sp - size..sp])
      ensures stack.Words()[start..start + size] == old(stack.Words()[sp - size..sp])
    {
      hide Put, Copied;
      ghost var ws := stack.Words();
      CopyBegins(ws, start, sp - size);
      for i := 0 to size
        invariant Copied(ws, stack.Words(), start, sp - size, i)
      {
        CopyStep(ws, stack.Words(), start, sp - size, i);
        var val := stack.ReadU32(sp - size + i);
        stack.WriteU32(start + i, val);
      }
      CopyEnds(ws, stack.Words(), start, sp - size, size);
    }

    /** `br_impl`. */
    method BrImpl(offset: nat, slot: U32, ghost next: int) returns (b: Break)
      requires Running() && !StepBranch(s, View(), offset, slot).Unsafe?
      modifies this`sp, this`fp, this`pc, this`module_, this`jumped, this`result, this`calls, stack.words
      ensures Reached(old(StepBranch(s, View(), offset, slot)), next, b)
    {
      hide FramesOk, Jump, Label.Arity, Depth, StepReturn, Replace;
      if Jump(slot) == 0 {
        b := Return(Label.Arity(slot), next);
        return;
      }
      MoveTop(Label.Arity(slot), Depth(slot), pc + offset + Jump(slot));
      pc := pc + offset + Jump(slot);
      jumped := true;
      b := Going;
    }

    /** Drop `depth` words under the topmost `arity` ones. */
    method MoveTop(arity: nat, depth: nat, ghost target: int)
      requires Running() && arity <= 2 && arity <= sp
      requires !Replace(View(), depth, View().live[sp - arity..], target).Unsafe?
      modifies this`sp, stack.words
      ensures Sized() && Next(View().(pc := target)) == old(Replace(View(), depth, View().live[sp - arity..], target))
    {
      hide FramesOk, Replace;
      ghost var (m, ws, top) := (View(), stack.Words(), sp);
      ghost var moved := m.live[sp - arity..];
      RoomFor(s, m, depth, moved, target);
      Cut(ws, sp - depth, sp);
      Cut(ws, sp - arity, sp);
      CopyTop(arity, depth);
      Replaced(m, depth, moved, target, stack.Words()[..sp]);
    }

    method CopyTop(arity: nat, depth: nat)
      requires Sized() && arity <= 2 && arity <= sp && depth <= sp && sp - depth + arity <= stack.words.Length
      modifies this`sp, stack.words
      ensures Sized() && sp == old(sp) - depth + arity
      ensures stack.Words()[..sp] == old(stack.Words()[..sp - depth]) + old(stack.Words()[sp - arity..sp])
    {
      if arity == 0 {
        CopyNone(depth);
      } else if arity == 1 {
        CopyOne(depth);
      } else {
        CopyTwo(depth);
      }
    }

    method CopyNone(depth: nat)
      requires Sized() && depth <= sp
      modifies this`sp
      ensures Sized() && sp == old(sp) - depth
      ensures stack.Words()[..sp] == old(stack.Words()[..sp - depth]) + old(stack.Words()[sp..sp])
    {
      ghost var (ws, top) := (stack.Words(), sp);
      sp := sp - depth;
      assert ws[..sp] + ws[top..top] == ws[..sp];
    }

    method CopyOne(depth: nat)
      requires Sized() && 1 <= sp && depth <= sp && sp - depth + 1 <= stack.words.Length
      modifies this`sp, stack.words
      ensures Sized() && sp == old(sp) - depth + 1
      ensures stack.Words()[..sp] == old(stack.Words()[..sp - depth]) + old(stack.Words()[sp - 1..sp])
    {
      hide Put;
      ghost var (ws, top) := (stack.Words(), sp);
      sp := sp - depth;
      var w := stack.ReadU32(sp + depth - 1);
      stack.WriteU32(sp, w);
      OneWord(ws, top - 1);
      PutOne(ws, sp, w);
      sp := sp + 1;
    }

    method CopyTwo(depth: nat)
      requires Sized() && 2 <= sp && depth <= sp && sp - depth + 2 <= stack.words.Length
      modifies this`sp, stack.words
      ensures Sized() && sp == old(sp) - depth + 2
      ensures stack.Words()[..sp] == old(stack.Words()[..sp - depth]) + old(stack.Words()[sp - 2..sp])
    {
      hide Put;
      ghost var (ws, top) := (stack.Words(), sp);
      sp := sp - depth;
      var w1 := stack.ReadU32(sp + depth - 2);
      var w2 := stack.ReadU32(sp + depth - 1);
      stack.WriteU32(sp, w1);
      stack.WriteU32(sp + 1, w2);
      TwoWords(ws, top - 2);
      PutTwo(ws, sp, w1, w2);
      sp := sp + 2;
    }

    /** Pop an i32, as the conditional instructions do. */
    method PopWord() returns (w: U32)
      requires Running() && CanPop(View(), 1)
      modifies this`sp
      ensures Running() && w == old(stack.Words()[sp - 1]) && View() == old(View().(live := Below(View(), 1)))
    {
      PopWords(1);
      w := stack.ReadU32(sp);
    }

    method If(slot: U32, ghost next: int) returns (b: Break)
      requires Running() && !StepInstr(s, Instr.If(slot), next, View()).Unsafe?
      modifies this`sp, this`pc, this`jumped
      ensures Reached(old(StepInstr(s, Instr.If(slot), next, View())), next, b)
    {
      hide FramesOk, Jump;
      var v := PopWord();
      if v == 0 {
        pc := pc + 1;
        pc := pc + Jump(slot);
        jumped := true;
      }
      b := Going;
    }

    method Br(slot: U32, ghost next: int) returns (b: Break)
      requires Running() && !StepInstr(s, Instr.Br(slot), next, View()).Unsafe?
      modifies this`sp, this`fp, this`pc, this`module_, this`jumped, this`result, this`calls, stack.words
      ensures Reached(old(StepInstr(s, Instr.Br(slot), next, View())), next, b)
    {
      hide StepBranch;
      b := BrImpl(1, slot, next);
    }

    method BrIf(slot: U32, ghost next: int) returns (b: Break)
      requires Running() && !StepInstr(s, Instr.BrIf(slot), next, View()).Unsafe?
      modifies this`sp, this`fp, this`pc, this`module_, this`jumped, this`result, this`calls, stack.words
      ensures Reached(old(StepInstr(s, Instr.BrIf(slot), next, View())), next, b)
    {
      hide FramesOk, StepBranch;
      var v := PopWord();
      if v != 0 {
        b := BrImpl(1, slot, next);
      } else {
        b := Going;
      }
    }

    /** `br_table` with the reader's walk along the cases; `at` is the address of the first slot. */
    method BrTable(code: CodeBuilder, at: nat, n: Word) returns (b: Break, next: nat)
      requires Running() && code.Valid() && !Dispatch(s, DecodeTable(code.Contents(), at, n), View()).Unsafe?
      modifies this`sp, this`fp, this`pc, this`module_, this`jumped, this`result, this`calls, stack.words
      ensures Reached(old(Dispatch(s, DecodeTable(code.Contents(), at, n), View())), next, b)
    {
      hide FramesOk, StepBranch, DecodeTable, Slot, Dispatch, Reached;
      TableInstr(s, View(), code.Contents(), at, n);
      var v := PopWord();
      var slot;
      slot, next := PickCase(code, at, n, v);
      var op_offset := if n >= 0xFF then 2 else 1;
      if v < n {
        b := BrImpl(op_offset + 2 * v, slot, next);
      } else {
        b := BrImpl(op_offset + 2 * n, slot, next);
      }
    }

    // ----- calls -----

    /** `call_impl_enter_module`. */
    method CallEnterModule(target: nat, index: nat, ghost next: int) returns (b: Break)
      requires Running() && !StepCall(s, View(), target, index).Unsafe?
      modifies this`sp, this`fp, this`pc, this`module_, this`jumped, this`calls, stack.words
      ensures Reached(old(StepCall(s, View(), target, index)), next, b)
    {
      ghost var m := View();
      var delta: U8 := 0;
      if target != module_ {
        delta := ModuleDelta(module_, target);
        module_ := target;
      } else {
        SameModule(target);
      }
      b := CallImpl(delta, index, m, next);
    }

    /** `call_impl`, with the current module already switched. */
    method CallImpl(delta: U8, index: nat, ghost m: Mach, ghost next: int) returns (b: Break)
      requires Sized() && !jumped && FramesOk(s, m) && !StepCall(s, m, module_, index).Unsafe?
      requires View() == m.(module_ := module_) && delta == ModuleDelta(m.module_, module_)
      modifies this`sp, this`fp, this`pc, this`jumped, this`calls, stack.words
      ensures Reached(StepCall(s, m, old(module_), index), next, b)
    {
      hide FramesOk, Header, ModuleDelta;
      var f := s.modules[module_].functions[index];
      var required := f.RequiredWords();
      if stack.words.Length < sp + required { return Break.Trap(TrapReason.StackOverflow); }
      var frame_length := sp - fp;
      var params := f.ParamWords();
      PushFrame(Header(frame_length, delta, params), pc, f.LocalWords());
      calls := calls + [Activation(module_, index, fp, params, f.LocalWords(), f.usage)];
      pc := f.entry;
      jumped := true;
      b := Going;
    }

    /** Write the two header words, clear the locals and move the registers. */
    method PushFrame(header: U32, back: U32, locals: nat)
      requires Sized() && sp + 2 + locals <= stack.words.Length
      modifies this`sp, this`fp, stack.words
      ensures Sized() && fp == old(sp)
      ensures stack.Words()[..sp] == old(stack.Words()[..sp]) + [header, back] + ZeroWords(locals)
    {
      hide Put;
      ghost var low := stack.Words()[..sp];
      PutTwo(stack.Words(), sp, header, back);
      stack.WriteU32(sp, header);
      stack.WriteU32(sp + 1, back);
      fp := sp;
      ghost var head := low + [header, back];
      assert head + ZeroWords(0) == head;
      for i := 0 to locals
        invariant sp == fp == old(sp) && stack.Words()[..sp + 2 + i] == head + ZeroWords(i)
      {
        PutOne(stack.Words(), sp + 2 + i, 0);
        stack.WriteU32(sp + 2 + i, 0);
        assert head + ZeroWords(i) + [0] == head + ZeroWords(i + 1);
      }
      sp := sp + 2 + locals;
    }

    // ----- host calls -----

    method ReadValue(t: ValType, a: nat) returns (v: Value)
      requires a + Width(t) <= stack.words.Length
      ensures v == FromWords(t, stack.Words()[a..a + Width(t)])
    {
      hide Join64;
      if t.I32? || t.F32? {
        var w := stack.ReadU32(a);
        OneWord(stack.Words(), a);
        v := if t.I32? then Value.I32(w) else Value.F32(w);
      } else {
        var d := stack.ReadU64(a);
        TwoWords(stack.Words(), a);
        v := if t.I64? then Value.I64(d) else Value.F64(d);
      }
    }

    /** Read the arguments of a host call, first argument deepest. */
    method ReadArgs(params: seq<ValType>) returns (vs: seq<Value>)
      requires sp + WordLen(params) <= stack.words.Length
      ensures vs == ReadValues(params, stack.Words()[sp..sp + WordLen(params)])
    {
      hide *;
      vs := [];
      var offset: nat := 0;
      ReadNone(params);
      ghost var ws := stack.Words()[sp..sp + WordLen(params)];
      assert ws[..0] == [];
      for i := 0 to |params|
        invariant offset == WordLen(params[..i]) <= |ws| && vs == ReadValues(params[..i], ws[..offset])
      {
        ArgPlace(params, i);
        ghost var end := offset + Width(params[i]);
        CutTwice(ws, offset, end);
        ReadPush(params[..i], params[i], ws[..end]);
        var v := ReadValue(params[i], sp + offset);
        SliceSlice(stack.Words(), sp, |ws|, offset, end);
        vs := vs + [v];
        offset := offset + Width(params[i]);
      }
      assert params[..|params|] == params && ws[..|ws|] == ws;
    }

    /** `call_host`. */
    method CallHost(h: nat, x: nat, ghost next: int) returns (b: Break)
      requires Running() && !StepHost(s, h, x, View(), next).Unsafe?
      modifies this`sp, this`trace, this`owed, stack.words
      ensures Reached(old(StepHost(s, h, x, View(), next)), next, b)
      ensures Owing(old(StepHost(s, h, x, View(), next)), b.Panic?, old(owed), owed)
    {
      HostCases(s, View(), h, x, next);
      var sig := s.hosts[h][x];
      hide FramesOk, HostOutcome, StepHost, WordLen, CanPop, HostAsked;
      Ask(h, x, sig);
      b := Reply(sig.result, next);
    }

    /** Pop the arguments and record the call. */
    method Ask(h: nat, x: nat, sig: FuncSig)
      requires Running() && CanPop(View(), WordLen(sig.params))
      modifies this`sp, this`trace
      ensures Running() && View() == old(HostAsked(View(), h, x, sig))
    {
      hide FramesOk, ReadValues, WordLen, CanPop, Below;
      var args := PopArgs(sig.params);
      var seen := trace + [HostCall(h, x, args)];
      FramesTrace(s, View(), seen);
      trace := seen;
    }

    method PopArgs(params: seq<ValType>) returns (vs: seq<Value>)
      requires Running() && CanPop(View(), WordLen(params))
      modifies this`sp
      ensures Running() && View() == old(View().(live := Below(View(), WordLen(params))))
      ensures vs == old(ReadValues(params, View().live[sp - WordLen(params)..]))
    {
      hide FramesOk, WordLen, ReadValues, CanPop, Below;
      CanPopFits(View(), WordLen(params));
      Cut(stack.Words(), sp - WordLen(params), sp);
      PopWords(WordLen(params));
      vs := ReadArgs(params);
    }

    method PopWords(n: nat)
      requires Running() && CanPop(View(), n)
      modifies this`sp
      ensures Running() && View() == old(View().(live := Below(View(), n))) && sp == old(sp) - n
    {
      hide FramesOk;
      PopFrames(s, View(), n);
      Cut(stack.Words(), sp - n, sp);
      sp := sp - n;
    }

    /** What the host replies to the last call. */
    method Reply(want: ResultType, ghost next: int) returns (b: Break)
      requires Sized() && !jumped && FramesOk(s, View()) && !HostOutcome(s, View(), want, next).Unsafe?
      modifies this`sp, this`owed, stack.words
      ensures Reached(old(HostOutcome(s, View(), want, next)), next, b)
      ensures Owing(old(HostOutcome(s, View(), want, next)), b.Panic?, old(owed), owed)
    {
      hide FramesOk, Replace;
      var r := s.reply(trace);
      match r {
        case HostTrap => b := Break.Trap(TrapReason.Host);
        case Pause(_) =>
          if owed.Some? { return Break.Panic; }
          owed := Some(want);
          b := Break.Pause;
        case Continue(v) =>
          Answer(v, next);
          b := Going;
      }
    }

    /** Push what a host answered, if anything. */
    method Answer(v: Option<Value>, ghost next: int)
      requires Sized() && FramesOk(s, View())
      requires !Replace(View(), 0, if v.None? then [] else ToWords(v.value), next).Unsafe?
      modifies this`sp, stack.words
      ensures Sized()
      ensures Next(View().(pc := next)) == old(Replace(View(), 0, if v.None? then [] else ToWords(v.value), next))
    {
      ghost var m := View();
      assert Below(m, 0) + [] == m.live && Below(m, 0) == m.live;
      if v.Some? {
        RoomFor(s, m, 0, ToWords(v.value), next);
        PushValue(v.value);
      }
    }

    // ----- one instruction (src/ir_reader.rs, `visit_instruction`) -----

    /** `if`, `br` and `br_if`. */
    method VisitJump(code: CodeBuilder, opcode: U8) returns (b: Break, next: nat)
      requires Running() && code.Valid() && pc >= 0
      requires opcode == IF || opcode == BR || opcode == BR_IF
      requires !Dispatch(s, DecodeJump(code.Contents(), pc, opcode), View()).Unsafe?
      modifies this`sp, this`fp, this`pc, this`module_, this`jumped, this`result, this`calls, stack.words
      ensures Reached(old(Dispatch(s, DecodeJump(code.Contents(), pc, opcode), View())), next, b)
    {
      hide FramesOk, StepInstr, Slot;
      var slot := ReadSlot(code, pc + 1);
      next := pc + 3;
      if opcode == IF {
        b := If(slot, next);
      } else if opcode == BR {
        b := Br(slot, next);
      } else {
        b := BrIf(slot, next);
      }
    }

    method VisitTable(code: CodeBuilder, imm: U8) returns (b: Break, next: nat)
      requires Running() && code.Valid() && pc >= 0
      requires !Dispatch(s, DecodeBrTable(code.Contents(), pc, imm), View()).Unsafe?
      modifies this`sp, this`fp, this`pc, this`module_, this`jumped, this`result, this`calls, stack.words
      ensures Reached(old(Dispatch(s, DecodeBrTable(code.Contents(), pc, imm), View())), next, b)
    {
      hide FramesOk, Dispatch, DecodeTable;
      TableRead(s, View(), code.Contents(), pc, imm);
      if imm == 0xFF {
        var n := ReadWord(code, pc + 1);
        b, next := BrTable(code, pc + 2, n);
      } else {
        b, next := BrTable(code, pc + 1, imm);
      }
    }

    /** `call`, `call_host` and `call_extern`. */
    method VisitCall(code: CodeBuilder, opcode: U8, imm: U8) returns (b: Break, next: nat)
      requires Running() && code.Valid() && pc >= 0
      requires opcode == CALL || opcode == CALL_HOST || opcode == CALL_EXTERN
      requires !Dispatch(s, DecodeCall(code.Contents(), pc, opcode, imm), View()).Unsafe?
      modifies this`sp, this`fp, this`pc, this`module_, this`jumped, this`calls, this`trace, this`owed, stack.words
      ensures Reached(old(Dispatch(s, DecodeCall(code.Contents(), pc, opcode, imm), View())), next, b)
      ensures Owing(old(Dispatch(s, DecodeCall(code.Contents(), pc, opcode, imm), View())), b.Panic?, old(owed), owed)
    {
      hide FramesOk, StepCall, StepHost;
      var x := ReadWord(code, pc + 1);
      next := pc + 2;
      CallStays(s, View(), if opcode == CALL then module_ else imm, x);
      if opcode == CALL {
        b := CallEnterModule(module_, x, next);
      } else if opcode == CALL_HOST {
        b := CallHost(imm, x, next);
      } else {
        b := CallEnterModule(imm, x, next);
      }
    }

    /** `drop` and `select`. */
    method VisitTyped(opcode: U8, imm: U8) returns (b: Break, next: nat)
      requires Running() && pc >= 0 && (opcode == DROP || opcode == SELECT)
      requires !Dispatch(s, DecodeTyped(pc, opcode, imm), View()).Unsafe?
      modifies this`sp, stack.words
      ensures Reached(old(Dispatch(s, DecodeTyped(pc, opcode, imm), View())), next, b)
    {
      hide FramesOk, Replace, StepSelect;
      var t := FromTag(imm);
      next := pc + 1;
      if t.None? { return Break.Trap(MalformedIr), next; }
      if opcode == DROP {
        b := Drop(t.value, next);
      } else {
        b := Select(t.value, next);
      }
    }

    method VisitLocal(code: CodeBuilder, opcode: U8, imm: U8) returns (b: Break, next: nat)
      requires Running() && code.Valid() && pc >= 0
      requires opcode == LOCAL_GET || opcode == LOCAL_SET || opcode == LOCAL_TEE
      requires !Dispatch(s, DecodeLocal(code.Contents(), pc, opcode, imm), View()).Unsafe?
      modifies this`sp, stack.words
      ensures Reached(old(Dispatch(s, DecodeLocal(code.Contents(), pc, opcode, imm), View())), next, b)
    {
      hide FramesOk, StepLocalGet, StepLocalSet, StepLocalTee;
      var w := ReadWord(code, pc + 1);
      var t := FromTag(imm);
      next := pc + 2;
      if t.None? { return Break.Trap(MalformedIr), next; }
      if opcode == LOCAL_GET {
        b := LocalGet(t.value, WordOffset(w), next);
      } else if opcode == LOCAL_SET {
        b := LocalSet(t.value, WordOffset(w), next);
      } else {
        b := LocalTee(t.value, WordOffset(w), next);
      }
    }

    /** Constants with a full immediate. */
    method VisitConst(code: CodeBuilder, opcode: U8) returns (b: Break, next: nat)
      requires Running() && code.Valid() && pc >= 0
      requires opcode == I32_CONST || opcode == F32_CONST || opcode == I64_CONST || opcode == F64_CONST
      requires !Dispatch(s, ConstAt(code.Contents(), pc, opcode), View()).Unsafe?
      modifies this`sp, stack.words
      ensures Reached(old(Dispatch(s, ConstAt(code.Contents(), pc, opcode), View())), next, b)
    {
      hide FramesOk, Replace, Slot;
      if opcode == I32_CONST || opcode == F32_CONST {
        var w := ReadSlot(code, pc + 1);
        next := pc + 3;
        b := Const(if opcode == I32_CONST then Value.I32(w) else Value.F32(w), next);
      } else {
        var lo := ReadSlot(code, pc + 1);
        var hi := ReadSlot(code, pc + 3);
        var d := Join64(lo, hi);
        next := pc + 5;
        b := Const(if opcode == I64_CONST then Value.I64(d) else Value.F64(d), next);
      }
    }

    /** The other one-word instructions. */
    method VisitShort(opcode: U8, imm: U8) returns (b: Break, next: nat)
      requires Running() && pc >= 0
      requires !Dispatch(s, ShortAt(pc, opcode, imm), View()).Unsafe?
      modifies this`sp, this`fp, this`pc, this`module_, this`jumped, this`result, this`calls, stack.words
      ensures Reached(old(Dispatch(s, ShortAt(pc, opcode, imm), View())), next, b)
    {
      hide FramesOk, Replace, StepNum, StepReturn;
      next := pc + 1;
      if opcode == UNREACHABLE {
        b := Break.Trap(TrapReason.Unreachable);
      } else if opcode == RETURN {
        b := Return(imm, next);
      } else if opcode == I32_CONST {
        b := Const(Value.I32(imm), next);
      } else if opcode == I64_CONST {
        b := Const(Value.I64(imm), next);
      } else {
        var op := NumFromOpcode(opcode);
        if op.None? { return Break.Trap(MalformedIr), next; }
        b := Numeric(op.value, next);
      }
    }

    /** Read one instruction and hand it to its handler; `next` is the address behind it. */
    method VisitInstruction(code: CodeBuilder) returns (b: Break, next: nat)
      requires Running() && code.Valid() && !StepOnce(s, code.Contents(), View()).Unsafe?
      modifies this`sp, this`fp, this`pc, this`module_, this`jumped
      modifies this`result, this`calls, this`trace, this`owed, stack.words
      ensures Reached(old(StepOnce(s, code.Contents(), View())), next, b)
      ensures Owing(old(StepOnce(s, code.Contents(), View())), b.Panic?, old(owed), owed)
    {
      hide FramesOk, Dispatch, DecodeJump, DecodeBrTable, DecodeCall, DecodeTyped, DecodeLocal, ConstAt, ShortAt;
      OnceDispatch(s, code.Contents(), View());
      var first := ReadWord(code, pc);
      var opcode: U8 := first / 0x100;
      var imm: U8 := first % 0x100;
      DecodeGroups(code.Contents(), pc);
      if opcode != CALL_HOST { OnlyHostCalls(s, code.Contents(), View()); }
      hide StepOnce, Decode;
      if opcode == IF || opcode == BR || opcode == BR_IF {
        b, next := VisitJump(code, opcode);
      } else if opcode == BR_TABLE {
        b, next := VisitTable(code, imm);
      } else if opcode == CALL || opcode == CALL_HOST || opcode == CALL_EXTERN {
        b, next := VisitCall(code, opcode, imm);
      } else if opcode == DROP || opcode == SELECT {
        b, next := VisitTyped(opcode, imm);
      } else if opcode == LOCAL_GET || opcode == LOCAL_SET || opcode == LOCAL_TEE {
        b, next := VisitLocal(code, opcode, imm);
      } else if LongConst(opcode, imm) {
        b, next := VisitConst(code, opcode);
      } else {
        b, next := VisitShort(opcode, imm);
      }
    }

    // ----- run, resume, invoke -----

    /** What a whole run leaves behind. */
    ghost predicate Ran(step: Step, r: RunResult)
      reads this, stack, stack.words
    {
      && Sized() && !jumped
      && match step
         case Next(m) => r.OutOfFuel? && Running() && View() == m
         case Paused(m, want) => r.Panic? || (r.Pause? && FramesOk(s, View()) && View() == m && owed == Some(want))
         case Finished(w, _, _, t) => r.Finished? && Idle() && result == Some(w) && trace == t
         case Trapped(reason, t) => r == RunResult.Trap(reason) && Idle() && trace == t
         case Unsafe => false
    }

    /** `run`: up to `n` instructions. When it has finished or trapped the engine is idle again, so the
        next invocation is not refused. Whether a host result is owed is not looked at: it stays owed,
        and another pause is a panic then. */
    method Run(code: CodeBuilder, n: nat) returns (r: RunResult)
      requires Sized() && !jumped && code.Valid() && |code.Contents()| < 0x8000_0000
      requires pc != SENTINEL ==> Running() && !RunToPause(s, code.Contents(), View(), n).Unsafe?
      modifies this`sp, this`fp, this`pc, this`module_, this`jumped
      modifies this`result, this`calls, this`trace, this`owed, stack.words
      ensures Sized() && !jumped
      ensures old(pc) == SENTINEL ==>
                View() == old(View()) && owed == old(owed) && r == (if n == 0 then OutOfFuel else RunResult.Finished)
      ensures old(pc) != SENTINEL ==> Ran(old(RunToPause(s, code.Contents(), View(), n)), r)
      ensures old(pc) != SENTINEL ==>
                Owing(old(RunToPause(s, code.Contents(), View(), n)), r.Panic?, old(owed), owed)
    {
      hide FramesOk, StepOnce;
      ghost var m := View();
      ghost var contents := code.Contents();
      for i := 0 to n
        invariant Sized() && !jumped && code.Valid() && code.Contents() == contents
        invariant old(pc) == SENTINEL ==> i == 0
        invariant (i == 0 ==> View() == m) && owed == old(owed)
        invariant old(pc) != SENTINEL ==>
                    Running() && RunToPause(s, contents, m, n) == RunToPause(s, contents, View(), n - i)
      {
        if pc == SENTINEL {
          if old(pc) != SENTINEL { OnceDispatch(s, contents, View()); }
          return RunResult.Finished;
        }
        r := Cycle(code);
        if !r.OutOfFuel? { return; }
      }
      r := OutOfFuel;
    }

    /** One round of the loop: an instruction, and what has to be done to the registers after it. */
    method Cycle(code: CodeBuilder) returns (r: RunResult)
      requires Running() && code.Valid() && !StepOnce(s, code.Contents(), View()).Unsafe?
      modifies this`sp, this`fp, this`pc, this`module_, this`jumped
      modifies this`result, this`calls, this`trace, this`owed, stack.words
      ensures Ran(old(StepOnce(s, code.Contents(), View())), r)
      ensures Owing(old(StepOnce(s, code.Contents(), View())), r.Panic?, old(owed), owed)
    {
      hide FramesOk, StepOnce;
      ghost var (m, contents) := (View(), code.Contents());
      var b, next := VisitInstruction(code);
      if jumped {
        jumped := false;
      } else {
        pc := next;
      }
      match b {
        case Going =>
          NextFrames(s, contents, m, View());
          r := OutOfFuel;
        case Trap(reason) =>
          sp, pc, fp, jumped := 0, SENTINEL, 0, false;
          r := RunResult.Trap(reason);
        case Pause =>
          PauseFrames(s, contents, m, View(), owed.value);
          r := RunResult.Pause;
        case Panic => r := RunResult.Panic;
        case Done =>
          StepIdles(s, contents, m);
          r := RunResult.Finished;
      }
    }

    /** `resume`: push the result a paused host function owes; anything else changes nothing. */
    method ResumeWith(v: Option<Value>) returns (r: Option<ResumeError>)
      requires Sized()
      requires ResumeFailure(owed, v).None? && v.Some? ==> sp + Width(v.value.Type()) <= stack.words.Length
      modifies this`sp, this`owed, stack.words
      ensures Sized() && r == ResumeFailure(old(owed), v)
      ensures r.Some? ==> View() == old(View()) && owed == old(owed)
      ensures r.None? ==>
                && owed.None?
                && View() == old(View().(live := View().live + if v.None? then [] else ToWords(v.value)))
    {
      if owed.None? { return Some(NotPaused); }
      var got := if v.None? then None else Some(v.value.Type());
      if got != owed.value { return Some(ResultTypeMismatch); }
      if v.Some? {
        PushValue(v.value);
      } else {
        assert View().live + [] == View().live;
      }
      owed := None;
      r := None;
    }

    /** `invoke`: start a function on an idle engine. */
    method Invoke(target: nat, index: nat, params: seq<Value>) returns (r: Option<InvokeError>)
      requires Sized() && !jumped
      requires target < |s.modules| <= 0x100 && index < |s.modules[target].functions|
      requires s.modules[target].functions[index].ParamWords() <= 0xFF
      modifies this`sp, this`fp, this`pc, this`module_, this`jumped, this`result, this`calls, this`trace, stack.words
      ensures Sized() && r == InvokeFailure(s, old(Idle()), target, index, params)
      ensures r == Some(Busy) ==> View() == old(View())
      ensures r.Some? && r != Some(Busy) ==> Idle() && !jumped
      ensures r.None? ==>
                && Running() && Machine.Invoke(s, target, index, params) == Next(View()) && result.None?
    {
      hide FramesOk, Flat, WordLen, Machine.Invoke, EnterCall, Header;
      if pc != SENTINEL || sp != 0 || fp != 0 { return Some(Busy); }
      var f := s.modules[target].functions[index];
      if |f.sig.params| != |params| { return Some(ParamLenMismatch); }
      if f.ParamWords() + f.RequiredWords() > stack.words.Length { return Some(InvokeError.StackOverflow); }
      var ok := PushParams(f.sig.params, params);
      if !ok { return Some(ParamTypeMismatch); }
      module_ := target;
      FlatLen(params);
      assert |stack.Words()[..sp]| == sp;
      Start(f, index, params);
      InvokeStarts(s, target, index, params);
      r := None;
    }

    /** `call_impl` for an invocation: the return address is the sentinel. */
    method Start(f: Func, ghost index: nat, ghost params: seq<Value>)
      requires Sized() && stack.Words()[..sp] == Flat(params) && sp == f.ParamWords() <= 0xFF && pc == SENTINEL
      requires f.ParamWords() + f.RequiredWords() <= stack.words.Length
      modifies this`sp, this`fp, this`pc, this`jumped, this`result, this`calls, this`trace, stack.words
      ensures Sized() && !jumped && result.None?
      ensures View() == EnterCall(Mach(SENTINEL, 0, Flat(params), module_, [], []), f,
                                  Header(f.ParamWords(), 0, f.ParamWords()), SENTINEL, module_, index)
    {
      hide Flat, Header, WordLen;
      PushFrame(Header(f.ParamWords(), 0, f.ParamWords()), pc, f.LocalWords());
      trace, calls := [], [Activation(module_, index, fp, f.ParamWords(), f.LocalWords(), f.usage)];
      pc := f.entry;
      jumped, result := false, None;
    }

    /** Write the arguments, checking their types one by one. */
    method PushParams(types: seq<ValType>, params: seq<Value>) returns (ok: bool)
      requires Sized() && sp == 0 && |types| == |params| && WordLen(types) <= stack.words.Length
      modifies this`sp, stack.words
      ensures Sized() && ok == (TypesOf(params) == types)
      ensures if ok then stack.Words()[..sp] == Flat(params) else sp == 0
    {
      hide WordLen, Flat, ToWords;
      var i := 0;
      NoParams(types, params);
      while i < |params|
        invariant 0 <= i <= |params| && Sized() && sp == WordLen(types[..i]) && stack.Words()[..sp] == Flat(params[..i])
        invariant TypesOf(params[..i]) == types[..i]
      {
        Locals.WordLenPrefix(types, i + 1, |types|);
        assert types[..|types|] == types;
        if params[i].Type() != types[i] {
          assert TypesOf(params)[i] != types[i];
          sp := 0;
          return false;
        }
        OneMoreParam(types, params, i);
        PushValue(params[i]);
        i := i + 1;
      }
      assert params[..|params|] == params && types[..|types|] == types;
      ok := true;
    }
  }

  /** The stack has room for what the machine puts on it. */
  lemma RoomFor(s: Store, m: Mach, n: nat, ws: seq<U32>, next: int)
    requires FramesOk(s, m) && !Replace(m, n, ws, next).Unsafe?
    ensures n <= |m.live| && |m.live| - n + |ws| <= s.stackWords
  {
  }

  /** What `return_` finds in the frame header, and what it makes of it. */
  lemma ReturnFacts(s: Store, m: Mach, size: nat)
    requires FramesOk(s, m) && !StepReturn(s, m, size).Unsafe?
    ensures m.calls != [] && m.fp + 2 + size <= |m.live| && size <= 2
    ensures HeaderParams(m.live[m.fp]) <= m.fp && HeaderLength(m.live[m.fp]) <= m.fp
  {
    assert LinkedBack(m, |m.calls| - 1);
    hide HeaderLength, HeaderParams, HeaderDelta, ModuleBack;
  }

  lemma ReturnFinishes(s: Store, m: Mach, size: nat)
    requires m.fp + 2 + size <= |m.live| && m.live[m.fp + 1] == SENTINEL && !StepReturn(s, m, size).Unsafe?
    ensures var h := m.live[m.fp];
            StepReturn(s, m, size)
            == Step.Finished(m.live[|m.live| - size..], m.fp - HeaderParams(h), m.fp - HeaderLength(h), m.trace)
  {
    hide HeaderLength, HeaderParams, HeaderDelta, ModuleBack;
  }

  lemma ReturnGoesOn(s: Store, m: Mach, size: nat)
    requires m.fp + 2 + size <= |m.live| && m.live[m.fp + 1] != SENTINEL && !StepReturn(s, m, size).Unsafe?
    requires m.calls != [] && HeaderParams(m.live[m.fp]) <= m.fp
    ensures var h := m.live[m.fp];
            StepReturn(s, m, size)
            == Next(Mach(AfterCall(m.live[m.fp + 1]), m.fp - HeaderLength(h),
                         m.live[..m.fp - HeaderParams(h)] + m.live[|m.live| - size..],
                         Unwound(m.module_, h), m.trace, m.calls[..|m.calls| - 1]))
  {
    hide HeaderLength, HeaderParams, HeaderDelta, ModuleBack;
  }

  /** A table jump is a branch through the chosen slot, from that slot's own address. */
  lemma TableInstr(s: Store, m: Mach, code: seq<Word>, at: nat, n: Word)
    requires !Dispatch(s, DecodeTable(code, at, n), m).Unsafe?
    ensures at + 2 * n + 2 <= |code| && CanPop(m, 1) && 1 <= |m.live|
    ensures var v := m.live[|m.live| - 1];
            var k := if v < n then v else n;
            Dispatch(s, DecodeTable(code, at, n), m)
            == StepBranch(s, m.(live := Below(m, 1)), (if n >= 0xFF then 2 else 1) + 2 * k, Slot(code, at + 2 * k))
  {
    hide StepBranch, Slot;
    var v := m.live[|m.live| - 1];
    Preservation.SlotsAtIndex(code, at, n + 1, if v < n then v else n);
  }

  lemma NoParams(types: seq<ValType>, params: seq<Value>)
    ensures types[..0] == [] && params[..0] == [] && WordLen([]) == 0
    ensures Flat([]) == [] && TypesOf(params[..0]) == types[..0]
  {
  }

  lemma OneMoreParam(types: seq<ValType>, params: seq<Value>, i: nat)
    requires i < |types| == |params| && params[i].Type() == types[i] && TypesOf(params[..i]) == types[..i]
    ensures WordLen(types[..i + 1]) == WordLen(types[..i]) + Width(types[i])
    ensures Flat(params[..i + 1]) == Flat(params[..i]) + ToWords(params[i])
    ensures TypesOf(params[..i + 1]) == types[..i + 1]
  {
    hide WordLen, Flat, ToWords;
    assert params[..i + 1] == params[..i] + [params[i]] && types[..i + 1] == types[..i] + [types[i]];
    FlatPush(params[..i], params[i]);
    WordLenPush(types[..i], types[i]);
  }

  lemma ReadNone(params: seq<ValType>)
    ensures params[..0] == [] && WordLen([]) == 0 && ReadValues([], []) == []
  {
  }

  lemma ReadPush(front: seq<ValType>, t: ValType, ws: seq<U32>)
    requires |ws| == WordLen(front) + Width(t)
    ensures WordLen(front + [t]) == |ws|
    ensures ReadValues(front + [t], ws) == ReadValues(front, ws[..WordLen(front)])
        + [FromWords(t, ws[WordLen(front)..])]
  {
    hide WordLen, FromWords, Width;
    WordLenPush(front, t);
    assert (front + [t])[..|front|] == front && (front + [t])[|front|] == t;
  }

  /** Where the next argument lies. */
  lemma ArgPlace(params: seq<ValType>, i: nat)
    requires i < |params|
    ensures params[..i + 1] == params[..i] + [params[i]]
    ensures WordLen(params[..i + 1]) == WordLen(params[..i]) + Width(params[i]) <= WordLen(params)
  {
    hide WordLen, Width;
    OneMoreType(params, i);
    WordLenPush(params[..i], params[i]);
    Locals.WordLenPrefix(params, i + 1, |params|);
    assert params[..|params|] == params;
  }

  lemma OneMoreType(params: seq<ValType>, i: nat)
    requires i < |params|
    ensures params[..i + 1] == params[..i] + [params[i]]
  {
  }

  /** A stack that differs from the machine's in the topmost words is what `Replace` makes of it. */
  lemma Replaced(m: Mach, n: nat, ws: seq<U32>, next: int, now: seq<U32>)
    requires !Replace(m, n, ws, next).Unsafe? && n <= |m.live| && now == m.live[..|m.live| - n] + ws
    ensures Replace(m, n, ws, next) == Next(m.(live := now, pc := next))
  {
  }

  /** The checks of `resume`, in order. */
  function ResumeFailure(owed: Option<ResultType>, v: Option<Value>): Option<ResumeError> {
    if owed.None? then Some(NotPaused)
    else if (if v.None? then None else Some(v.value.Type())) != owed.value then Some(ResultTypeMismatch)
    else None
  }

  /** A resumption that is not unsafe has room for the value. */
  lemma ResumePushes(s: Store, m: Mach, want: ResultType, v: Option<Value>)
    requires FramesOk(s, m) && Resume(m, want, v).Next?
    ensures ResumeFailure(Some(want), v).None?
    ensures v.Some? ==> |m.live| + Width(v.value.Type()) <= s.stackWords
    ensures Resume(m, want, v).m == m.(live := m.live + if v.None? then [] else ToWords(v.value))
  {
    hide FramesOk;
    RoomFor(s, m, 0, if v.None? then [] else ToWords(v.value), m.pc);
    assert m.live[..|m.live|] == m.live;
  }

  lemma NothingPut(m: Mach, n: nat, next: int)
    requires !Replace(m, n, [], next).Unsafe? && n <= |m.live|
    ensures Replace(m, n, [], next) == Next(m.(live := m.live[..|m.live| - n], pc := next))
  {
    assert m.live[..|m.live| - n] + [] == m.live[..|m.live| - n];
  }

  /** `now` is `ws` with the first `i` of the words from `from` copied down to `start`. */
  predicate Copied(ws: seq<U32>, now: seq<U32>, start: nat, from: nat, i: nat) {
    && |now| == |ws| && start <= from && from + i <= |ws|
    && (forall k :: 0 <= k < start ==> now[k] == ws[k])
    && (forall k :: start <= k < start + i ==> now[k] == ws[from + (k - start)])
    && (forall k :: start + i <= k < |ws| ==> now[k] == ws[k])
  }

  lemma CopyBegins(ws: seq<U32>, start: nat, from: nat)
    requires start <= from <= |ws|
    ensures Copied(ws, ws, start, from, 0)
  {
  }

  lemma CopyStep(ws: seq<U32>, now: seq<U32>, start: nat, from: nat, i: nat)
    requires Copied(ws, now, start, from, i) && from + i < |ws|
    ensures start + i < |now| && from + i < |now|
    ensures Copied(ws, Put(now, start + i, now[from + i]), start, from, i + 1)
  {
  }

  lemma CopyEnds(ws: seq<U32>, now: seq<U32>, start: nat, from: nat, n: nat)
    requires Copied(ws, now, start, from, n)
    ensures start + n <= |now| && from + n <= |ws|
    ensures now[start..start + n] == ws[from..from + n]
    ensures now[..start + n] == ws[..start] + ws[from..from + n]
  {
    var (top, want) := (now[start..start + n], ws[from..from + n]);
    forall k | 0 <= k < n ensures top[k] == want[k] {
      assert top[k] == now[start + k] && want[k] == ws[from + k];
    }
    assert now[..start] == ws[..start];
    assert now[..start + n] == now[..start] + top;
  }

  lemma SliceSlice(ws: seq<U32>, sp: nat, n: nat, o: nat, e: nat)
    requires o <= e <= n && sp + n <= |ws|
    ensures ws[sp..sp + n][o..e] == ws[sp + o..sp + e]
  {
    var (a, b) := (ws[sp..sp + n][o..e], ws[sp + o..sp + e]);
    forall k | 0 <= k < e - o ensures a[k] == b[k] {
      assert a[k] == ws[sp..sp + n][o + k];
    }
  }

  /** What a numeric instruction leaves, in words. */
  lemma NumFacts(op: NumOp, m: Mach, next: int) returns (r: Option<seq<U32>>)
    requires !StepNum(op, m, next).Unsafe?
    ensures var n := WordLen(NumParams(op));
            && n <= |m.live| && r == NumWords(op, m.live[|m.live| - n..])
            && n == (match op case I64Eq => 4 case I64Add => 4 case I32Eqz => 1 case I64ExtendI32U => 1 case _ => 2)
            && StepNum(op, m, next) == if r.Some? then Replace(m, n, r.value, next) else Trapped(DivideByZero, m.trace)
  {
    NumParamWords(op);
    hide WordLen, Replace, NumWords;
    r := NumWords(op, m.live[|m.live| - WordLen(NumParams(op))..]);
  }

  lemma SelectFacts(t: ValType, m: Mach, next: int)
    requires !StepSelect(t, m, next).Unsafe?
    ensures var (n, w) := (|m.live|, Width(t));
            && 2 * w + 1 <= n
            && StepSelect(t, m, next) ==
               if m.live[n - 1] != 0 then Replace(m, w + 1, [], next)
               else Replace(m, 2 * w + 1, m.live[n - 1 - w..n - 1], next)
  {
    hide Replace;
  }

  lemma CutTwice(ws: seq<U32>, o: nat, e: nat)
    requires o <= e <= |ws|
    ensures ws[..e][..o] == ws[..o] && ws[..e][o..] == ws[o..e]
  {
  }

  /** What a host call comes to, once its arguments are popped and recorded. */
  function HostOutcome(s: Store, m1: Mach, want: ResultType, next: int): Step {
    var reply := s.reply(m1.trace);
    if reply.HostTrap? then Trapped(TrapReason.Host, m1.trace)
    else if reply.Pause? then Paused(m1.(pc := next), want)
    else Replace(m1, 0, if reply.result.None? then [] else ToWords(reply.result.value), next)
  }

  /** The machine with the arguments of a host call popped and the call recorded. */
  function HostAsked(m: Mach, h: nat, x: nat, sig: FuncSig): Mach
    requires CanPop(m, WordLen(sig.params))
  {
    var n := WordLen(sig.params);
    m.(live := Below(m, n), trace := m.trace + [HostCall(h, x, ReadValues(sig.params, m.live[|m.live| - n..]))])
  }

  lemma HostCases(s: Store, m: Mach, h: nat, x: nat, next: int)
    requires !StepHost(s, h, x, m, next).Unsafe?
    ensures h < |s.hosts| && x < |s.hosts[h]| && CanPop(m, WordLen(s.hosts[h][x].params))
    ensures StepHost(s, h, x, m, next) == HostOutcome(s, HostAsked(m, h, x, s.hosts[h][x]), s.hosts[h][x].result, next)
  {
    hide ReadValues;
  }

  /** The frames do not depend on the calls the hosts have seen. */
  lemma FramesTrace(s: Store, m: Mach, trace: seq<HostCall>)
    requires FramesOk(s, m)
    ensures FramesOk(s, m.(trace := trace))
  {
    hide HeaderLength, HeaderParams;
    var m1 := m.(trace := trace);
    forall k | 0 <= k < |m.calls| ensures LinkedBack(m1, k) { assert LinkedBack(m, k); }
    forall j, k | 0 <= j < k < |m.calls| ensures Nested(m1, j, k) { assert Nested(m, j, k); }
  }

  /** The checks of `invoke`, in order. */
  function InvokeFailure(s: Store, idle: bool, target: nat, index: nat, params: seq<Value>): Option<InvokeError>
    requires target < |s.modules| && index < |s.modules[target].functions|
  {
    var f := s.modules[target].functions[index];
    if !idle then Some(Busy)
    else if |f.sig.params| != |params| then Some(ParamLenMismatch)
    else if s.stackWords < f.ParamWords() + f.RequiredWords() then Some(InvokeError.StackOverflow)
    else if TypesOf(params) != f.sig.params then Some(ParamTypeMismatch)
    else None
  }

  lemma InvokeStarts(s: Store, target: nat, index: nat, params: seq<Value>)
    requires target < |s.modules| <= 0x100 && index < |s.modules[target].functions|
    requires s.modules[target].functions[index].ParamWords() <= 0xFF
    requires InvokeFailure(s, true, target, index, params).None?
    ensures var f := s.modules[target].functions[index];
            var m := EnterCall(Mach(SENTINEL, 0, Flat(params), target, [], []), f,
                               Header(f.ParamWords(), 0, f.ParamWords()), SENTINEL, target, index);
            Machine.Invoke(s, target, index, params) == Next(m) && FramesOk(s, m)
  {
    hide Flat, WordLen, Header, FramesOk, EnterCall;
    InvokeFrames(s, target, index, params);
  }

  lemma NextFrames(s: Store, code: seq<Word>, m: Mach, m': Mach)
    requires FramesOk(s, m) && StepOnce(s, code, m) == Next(m')
    ensures FramesOk(s, m')
  {
    hide FramesOk, StepOnce;
    StepFrames(s, code, m, m');
  }

  lemma PauseFrames(s: Store, code: seq<Word>, m: Mach, m': Mach, want: ResultType)
    requires FramesOk(s, m) && StepOnce(s, code, m) == Paused(m', want)
    ensures FramesOk(s, m')
  {
    hide FramesOk, Decode, StepHost, ReadValues;
    var d := Decode(code, m.pc);
    if !d.instr.CallHost? { Activations.NotPaused(s, d.instr, d.next, m); }
    HostCases(s, m, d.instr.module_, d.instr.index, d.next);
    var n := WordLen(s.hosts[d.instr.module_][d.instr.index].params);
    PopFrames(s, m, n);
    FramesTrace(s, m.(live := Below(m, n)), m'.trace);
    FramesPc(s, m.(live := Below(m, n), trace := m'.trace), m'.pc);
  }

  lemma FramesPc(s: Store, m: Mach, pc: int)
    requires FramesOk(s, m)
    ensures FramesOk(s, m.(pc := pc))
  {
    hide HeaderLength, HeaderParams;
    var m1 := m.(pc := pc);
    forall k | 0 <= k < |m.calls| ensures LinkedBack(m1, k) { assert LinkedBack(m, k); }
    forall j, k | 0 <= j < k < |m.calls| ensures Nested(m1, j, k) { assert Nested(m, j, k); }
  }

  lemma SameModule(m: nat)
    ensures ModuleDelta(m, m) == 0
  {
  }

  // ----- dispatch -----

  /** What a decoded instruction does. */
  function Dispatch(s: Store, d: Decoded, m: Mach): Step {
    match d
    case OffEnd => Unsafe
    case Malformed => Trapped(MalformedIr, m.trace)
    case Instr(i, next) => StepInstr(s, i, next, m)
  }

  predicate LongConst(opcode: U8, imm: U8) {
    ((opcode == I32_CONST || opcode == I64_CONST) && imm == 0xFF) || opcode == F32_CONST || opcode == F64_CONST
  }

  function ConstAt(code: seq<Word>, pc: nat, opcode: U8): Decoded {
    if opcode == I32_CONST || opcode == F32_CONST then DecodeConst32(code, pc, opcode)
    else DecodeConst64(code, pc, opcode)
  }

  function ShortAt(pc: nat, opcode: U8, imm: U8): Decoded {
    if opcode == UNREACHABLE then Decoded.Instr(Instr.Unreachable, pc + 1)
    else if opcode == RETURN then Decoded.Instr(Instr.Return(imm), pc + 1)
    else if opcode == I32_CONST then Decoded.Instr(Instr.Const(Value.I32(imm)), pc + 1)
    else if opcode == I64_CONST then Decoded.Instr(Instr.Const(Value.I64(imm)), pc + 1)
    else
      match NumFromOpcode(opcode)
      case Some(op) => Decoded.Instr(Instr.Num(op), pc + 1)
      case None => Malformed
  }

  lemma OnceDispatch(s: Store, code: seq<Word>, m: Mach)
    requires !StepOnce(s, code, m).Unsafe?
    ensures 0 <= m.pc < |code| && StepOnce(s, code, m) == Dispatch(s, Decode(code, m.pc), m)
  {
    hide StepInstr, DecodeJump, DecodeBrTable, DecodeCall, DecodeTyped, DecodeLocal, DecodeConst32, DecodeConst64;
  }

  /** Only the call of a host pauses. */
  lemma OnlyHostCalls(s: Store, code: seq<Word>, m: Mach)
    requires 0 <= m.pc < |code| && code[m.pc] / 0x100 != CALL_HOST
    ensures !Dispatch(s, Decode(code, m.pc), m).Paused?
  {
    hide StepInstr, Slot, SlotsAt, NumFromOpcode, FromTag;
    var d := Decode(code, m.pc);
    if d.Instr? { Activations.NotPaused(s, d.instr, d.next, m); }
  }

  lemma CallStays(s: Store, m: Mach, module_: nat, index: nat)
    ensures !StepCall(s, m, module_, index).Paused?
  {
    hide EnterCall, Header, ModuleDelta, CanPop;
  }

  lemma DecodeGroups(code: seq<Word>, pc: nat)
    requires pc < |code|
    ensures var opcode: U8 := code[pc] / 0x100;
            var imm: U8 := code[pc] % 0x100;
            Decode(code, pc) ==
            if opcode == IF || opcode == BR || opcode == BR_IF then DecodeJump(code, pc, opcode)
            else if opcode == BR_TABLE then DecodeBrTable(code, pc, imm)
            else if opcode == CALL || opcode == CALL_HOST || opcode == CALL_EXTERN then
              DecodeCall(code, pc, opcode, imm)
            else if opcode == DROP || opcode == SELECT then DecodeTyped(pc, opcode, imm)
            else if opcode == LOCAL_GET || opcode == LOCAL_SET || opcode == LOCAL_TEE then
              DecodeLocal(code, pc, opcode, imm)
            else if LongConst(opcode, imm) then ConstAt(code, pc, opcode)
            else ShortAt(pc, opcode, imm)
  {
    hide DecodeJump, DecodeBrTable, DecodeCall, DecodeTyped, DecodeLocal, DecodeConst32, DecodeConst64, NumFromOpcode;
  }

  lemma TableRead(s: Store, m: Mach, code: seq<Word>, pc: nat, imm: U8)
    requires !Dispatch(s, DecodeBrTable(code, pc, imm), m).Unsafe?
    ensures imm == 0xFF ==> pc + 1 < |code|
  {
    hide DecodeTable, StepInstr;
  }

  // ----- reading code (src/ir_reader.rs) -----

  /** `IrReader::read`, which checks nothing: the page and the word in it must exist. */
  method ReadWord(code: CodeBuilder, a: nat) returns (w: Word)
    requires code.Valid() && a < |code.Contents()|
    ensures w == code.Contents()[a]
  {
    w := code.pages[a / Text.PAGE_WORDS][a % Text.PAGE_WORDS];
  }

  /** `IrReader::read_u32`. */
  method ReadSlot(code: CodeBuilder, a: nat) returns (d: U32)
    requires code.Valid() && SlotIn(code.Contents(), a)
    ensures d == Slot(code.Contents(), a)
  {
    var lo: int := ReadWord(code, a);
    var hi: int := ReadWord(code, a + 1);
    d := lo + hi * 0x1_0000;
  }

  /** The walk along a slot table: skip the cases before the chosen one, read it, skip the rest. The
      slot read is case `v`, or the default, and the address returned is behind the whole table. */
  method PickCase(code: CodeBuilder, at: nat, n: Word, v: U32) returns (slot: U32, next: nat)
    requires code.Valid() && at + 2 * n + 2 <= |code.Contents()|
    ensures next == at + 2 * n + 2
    ensures slot == Slot(code.Contents(), at + 2 * (if v < n then v else n))
  {
    hide Slot;
    next := at;
    if v < n {
      for i := 0 to v
        invariant next == at + 2 * i
      {
        var _ := ReadSlot(code, next);
        next := next + 2;
      }
      slot := ReadSlot(code, next);
      next := next + 2;
      for i := v + 1 to n
        invariant next == at + 2 * i
      {
        var _ := ReadSlot(code, next);
        next := next + 2;
      }
      var _ := ReadSlot(code, next);
      next := next + 2;
    } else {
      for i := 0 to n
        invariant next == at + 2 * i
      {
        var _ := ReadSlot(code, next);
        next := next + 2;
      }
      slot := ReadSlot(code, next);
      next := next + 2;
    }
  }
}
