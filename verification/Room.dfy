/** When a valid body is refused: each limit by the count that exceeds it (src/text.rs, `push_stack`,
    `push_control`, `write_label_target`, `pop_control`, `get_local` and the code builder). The counts are
    of words, frames, operands, cases and links; none of them is asked of the function that refuses. */
module Room {
  import opened Values
  import opened Label
  import opened Ir
  import opened Wasm
  import opened Text
  import opened Chains
  import opened Frames
  import opened Extension
  import opened Typing
  import opened Locals
  import opened Validity

  /** The words of all pages. */
  function AllWords(c: Context): nat { 256 * c.options.maxPages }

  // ----- operands -----

  /** The operands left above the frame's start after taking `n`; dead code takes what is not there. */
  function Left(st: State, n: nat): nat
    requires Validity.Open(st)
  {
    if |st.values| - n < Innermost(st).height then Innermost(st).height else |st.values| - n
  }


  lemma PushExactly(c: Context, st: State, o: Operand)
    ensures PushOperand(c, st, o).Err? <==> |st.values| >= c.options.maxStack
    ensures PushOperand(c, st, o).Err? ==> PushOperand(c, st, o).error == OutOfMemory
  {
  }

  /** Words of the operands from `from` up to the first of unknown type. */
  function WordsFrom(values: seq<Operand>, from: nat): nat
    decreases |values| - from
  {
    if from >= |values| then 0
    else match values[from]
      case Unknown => 0
      case Known(t) => (if t == ValType.I64 || t == ValType.F64 then 2 else 1) + WordsFrom(values, from + 1)
  }

  /** All operands under a frame that starts at `n` have known types. */
  predicate KnownUnder(values: seq<Operand>, n: nat) { forall i :: 0 <= i < n && i < |values| ==> values[i].Known? }

  /** The operand words above a frame that starts at height `n`. */
  function WordsAbove(values: seq<Operand>, n: nat): nat {
    if KnownUnder(values, n) then WordsFrom(values, n) else 0
  }

  lemma {:induction false} WordsFromRest(values: seq<Operand>, k: nat)
    requires values != []
    ensures WordsFrom(values[1..], k) == WordsFrom(values, k + 1)
    decreases |values| - k
  {
    if k + 1 < |values| { WordsFromRest(values, k + 1); }
  }

  lemma {:induction false} HeightSplits(values: seq<Operand>, n: nat)
    requires n <= |values|
    ensures Height(values) == Height(values[..n]) + WordsAbove(values, n)
    decreases |values|
  {
    if values == [] {
      assert values[..n] == [];
    } else if n == 0 {
      HeightSplits(values[1..], 0);
      assert values[1..][..0] == [] && values[..0] == [];
      WordsFromRest(values, 0);
    } else if values[0].Known? {
      assert values[..n][1..] == values[1..][..n - 1];
      HeightSplits(values[1..], n - 1);
      WordsFromRest(values, n - 1);
      assert KnownUnder(values, n) <==> KnownUnder(values[1..], n - 1) by {
        if KnownUnder(values[1..], n - 1) {
          forall i | 0 <= i < n ensures values[i].Known? { if i > 0 { assert values[1..][i - 1] == values[i]; } }
        } else {
          var i :| 0 <= i < n - 1 && !values[1..][i].Known?;
          assert values[i + 1] == values[1..][i];
        }
      }
    }
  }

  lemma AboveWords(st: State, f: Frame)
    requires f.height <= |st.values|
    ensures Above(st, f) == WordsAbove(st.values, f.height)
  {
    HeightSplits(st.values, f.height);
    if f.height == |st.values| { assert st.values[..f.height] == st.values; }
  }

  // ----- branches -----

  /** The frame of label `l`; the last label is the function's. */
  function Labelled(st: State, l: nat): Frame
    requires l < |st.frames|
  {
    st.frames[|st.frames| - 1 - l]
  }

  /** The slot of a branch to `l` at address `a`, over the operands `values`: at most 255 words lie above
      the frame, and its start (of a loop) or its newest slot is in reach. The function's own label needs
      neither. */
  predicate SlotRoom(st: State, l: nat, a: int, values: seq<Operand>) {
    l + 1 < |st.frames| ==>
      && WordsAbove(values, Labelled(st, l).height) <= 255
      && (Labelled(st, l).target != SENTINEL ==> Reaches(a, Labelled(st, l).target))
  }

  /** Each refusal of `write_label_target` has its own cause. */
  lemma LabelErrorsExactly(c: Context, st: State, l: nat, lo: nat)
    requires StackOk(st) && ChainsOk(st, lo)
    ensures var r := WriteLabelTarget(c, st, l);
            var inner := l + 1 < |st.frames|;
            var tooDeep := inner && WordsAbove(st.values, Labelled(st, l).height) > 255;
            var tooFar :=
              inner && Labelled(st, l).target != SENTINEL && !Reaches(|st.code|, Labelled(st, l).target);
            && (r == Result.Err(InvalidLabelIndex) <==> l >= |st.frames|)
            && (r == Result.Err(LabelStackJumpTooDeep) <==> tooDeep)
            && (r == Result.Err(LabelJumpTooLarge) <==> !tooDeep && tooFar)
            && (r == Result.Err(OutOfMemory) <==>
                  l < |st.frames| && !tooDeep && !tooFar && |st.code| + 2 > AllWords(c))
            && (r.Ok? <==> l < |st.frames| && !tooDeep && !tooFar && |st.code| + 2 <= AllWords(c))
  {
    hide Pack, Above, WordsAbove, FitsJump;
    if l + 1 < |st.frames| {
      var f := Labelled(st, l);
      assert f.height <= Innermost(st).height;
      AboveWords(st, f);
      TargetBounds(st, |st.frames| - 1 - l, lo);
      if f.target != SENTINEL { FitsJumpRange(f.target - |st.code|); }
    }
  }

  lemma TargetBounds(st: State, i: nat, lo: nat)
    requires ChainsOk(st, lo) && i < |st.frames|
    ensures st.frames[i].target == SENTINEL || 0 <= st.frames[i].target <= |st.code| < 0x8000_0000
  {
    assert FrameOk(st, i, lo);
  }

  // ----- taking operands -----

  /** An operand is missing or of the wrong type: no limit. */
  predicate Untyped(e: Error) { e == StackUnderflow || e == TypeMismatch }

  lemma TakeOne(st: State, want: Operand)
    requires Validity.Open(st)
    ensures var r := PopExpect(st, want);
            if r.Err? then Untyped(r.error)
            else r.value.0 == st.(values := st.values[..Left(st, 1)])
  {
    assert st.values[..|st.values|] == st.values;
  }

  lemma TakeNext(st: State, n: nat)
    requires Validity.Open(st)
    ensures var st1 := st.(values := st.values[..Left(st, 1)]);
            Left(st1, n) == Left(st, n + 1)
            && st1.(values := st1.values[..Left(st1, n)]) == st.(values := st.values[..Left(st, n + 1)])
  {
    var v := st.values[..Left(st, 1)];
    assert v[..Left(st, n + 1)] == st.values[..Left(st, n + 1)];
  }

  lemma {:induction false} TakeTypes(st: State, ts: seq<ValType>)
    requires Validity.Open(st)
    ensures var r := PopTypes(st, ts);
            if r.Err? then Untyped(r.error) else r.value == st.(values := st.values[..Left(st, |ts|)])
    decreases |ts|
  {
    if ts == [] {
      assert st.values[..|st.values|] == st.values;
    } else {
      var t := ts[|ts| - 1];
      TakeOne(st, Known(t));
      hide PopExpect;
      if PopType(st, t).Ok? {
        TakeNext(st, |ts| - 1);
        TakeTypes(PopType(st, t).value, ts[..|ts| - 1]);
      }
    }
  }

  lemma TakeResult(st: State, r: ResultType)
    requires Validity.Open(st)
    ensures var p := PopResult(st, r);
            if p.Err? then Untyped(p.error) else p.value == st.(values := st.values[..Left(st, ResultCount(r))])
  {
    hide PopResult, PopTypes;
    ResultIsTypes(st, r);
    TakeTypes(st, ResultTypes(r));
  }

  // ----- instructions -----

  /** The words of an instruction. */
  function OpWords(op: Op): nat {
    match op
    case Nop => 0
    case Const(v) =>
      (match v
       case I32(w) => if w < 0xFF then 1 else 3
       case I64(d) => if d < 0xFF then 1 else 5
       case F32(_) => 3
       case F64(_) => 5)
    case LocalGet(_) => 2
    case LocalSet(_) => 2
    case LocalTee(_) => 2
    case Call(_) => 2
    case Br(_) => 3
    case BrIf(_) => 3
    case BrTable(ls, _) => (if |ls| < 0xFF then 1 else 2) + 2 * |ls| + 2
    case _ => 1
  }

  /** A local can be named: there is one, the 16-bit counter does not pass it by, and its offset has 15
      bits. */
  predicate LocalRoom(c: Context, x: nat) {
    var np := |c.sig.params|;
    && x < |LocalTypes(c.sig, c.groups)|
    && (np <= x ==> np + GroupEnd(c.groups, x - np) <= 0xFFFF && FrameOffset(c.sig, c.groups, x) <= 0x7FFF)
  }

  /** No other error comes of naming a local. */
  lemma LocalExactly(c: Context, x: nat)
    requires WordLen(c.sig.params) <= 0xFF
    ensures var r := GetLocal(c, x); if LocalRoom(c, x) then r.Ok? else r == Result.Err(LocalIdxOutOfRange)
  {
    GetLocalExact(c, x);
    if x <= 0xFFFF && x >= |c.sig.params| { SearchFails(c.groups, x, |c.sig.params|, 0); }
  }

  lemma {:induction false} SearchFails(groups: seq<LocalGroup>, x: Word, index: Word, offset: nat)
    requires index <= x
    ensures FindLocal(groups, x, index, offset).Err? ==>
              FindLocal(groups, x, index, offset).error == LocalIdxOutOfRange
    decreases |groups|
  {
    if groups != [] {
      var end: Word := (index + groups[0].count) % 0x1_0000;
      if end <= x { SearchFails(groups[1..], x, end, offset + Width(groups[0].ty) * groups[0].count); }
    }
  }

  /** One more operand after `n` are taken. */
  predicate PushRoom(c: Context, st: State, n: nat)
    requires Validity.Open(st)
  {
    Left(st, n) < c.options.maxStack
  }

  /** Case `k` of a table at address `base`. A block's slot is in reach of the one before it in the same
      table, so only the first case of a label can be too far. */
  predicate CaseRoom(st: State, ls: seq<nat>, k: nat, base: int)
    requires k < |ls|
  {
    ls[k] + 1 < |st.frames| ==>
      var f := Labelled(st, ls[k]);
      && WordsAbove(st.values, f.height) <= 255
      && (f.target != SENTINEL && (f.kind.Loop? || ls[k] !in ls[..k]) ==> Reaches(base + 2 * k, f.target))
  }

  predicate CasesRoom(st: State, ls: seq<nat>, base: int) { forall k :: 0 <= k < |ls| ==> CaseRoom(st, ls, k, base) }

  /** Room for an instruction, but for its words. */
  predicate OpRoom(c: Context, st: State, op: Op)
    requires Validity.Open(st)
  {
    match op
    case Const(_) => PushRoom(c, st, 0)
    case Num(o) => PushRoom(c, st, |NumParams(o)|)
    case Select => PushRoom(c, st, 3)
    case LocalGet(x) => LocalRoom(c, x) && PushRoom(c, st, 0)
    case LocalSet(x) => LocalRoom(c, x)
    case LocalTee(x) => LocalRoom(c, x) && PushRoom(c, st, 1)
    case Br(l) => SlotRoom(st, l, |st.code| + 1, st.values)
    case BrIf(l) =>
      && SlotRoom(st, l, |st.code| + 1, st.values[..Left(st, 1)])
      && (l < |st.frames| && LabelType(c, st, |st.frames| - 1 - l).Some? ==> PushRoom(c, st, 2))
    case BrTable(ls, d) =>
      && |ls| <= 0xFFFF
      && var head := if |ls| < 0xFF then 1 else 2;
         CasesRoom(st.(values := st.values[..Left(st, 1)]), ls + [d], |st.code| + head)
    case Call(x) => x < |c.index| && c.index[x].sig.result.Some? ==> PushRoom(c, st, |c.index[x].sig.params|)
    case _ => true
  }

  /** What a compile step says of room: accepted, it took `n` words and there was room; refused with room,
      it was not for a limit. */
  predicate Roomy(c: Context, st: State, r: Result<State, Error>, n: nat, room: bool) {
    && (r.Ok? ==> |r.value.code| == |st.code| + n && |r.value.frames| == |st.frames| && room)
    && (r.Ok? && n > 0 ==> |st.code| + n <= AllWords(c))
    && (r.Err? && room && |st.code| + n <= AllWords(c) ==> !Limit(r.error))
  }

  /** The words of inline instructions. */
  lemma EmittedWords(c: Context, op: Op)
    requires Inline(op) && Named(c, op)
    ensures |EmittedBy(c, op)| == OpWords(op)
  {
    hide GetLocal, Imm8, OffsetWord, TypeTag;
  }

  predicate NameRoom(c: Context, op: Op) {
    op.LocalGet? || op.LocalSet? || op.LocalTee? ==> LocalRoom(c, op.x)
  }

  lemma NameExactly(c: Context, st: State, op: Op)
    requires Inline(op) && WordLen(c.sig.params) <= 0xFF && Validity.Open(st)
    ensures Named(c, op) ==> NameRoom(c, op)
    ensures !Named(c, op) ==> CompileOp(c, st, op).Err?
    ensures !Named(c, op) && NameRoom(c, op) ==> CompileOp(c, st, op).error == FunctionIdxOutOfRange
    ensures OpRoom(c, st, op) ==> NameRoom(c, op)
  {
    hide GetLocal, LocalRoom;
    if op.LocalGet? || op.LocalSet? || op.LocalTee? { LocalExactly(c, op.x); }
  }

  lemma InlineCounts(c: Context, st: State, op: Op)
    requires Inline(op) && Named(c, op) && Validity.Open(st)
    ensures OpRoom(c, st, op) <==> NameRoom(c, op) && (GivenBy(c, op).Some? ==> PushRoom(c, st, |TakenBy(c, op)|))
  {
    hide GetLocal, LocalRoom, NumParams;
  }

  /** Taking operands and pushing a result. */
  lemma GiveExactly(c: Context, st: State, n: nat, r: ResultType)
    requires Validity.Open(st)
    ensures var st1 := st.(values := st.values[..Left(st, n)]);
            var p := PushResult(c, st1, r);
            && (p.Err? <==> r.Some? && !PushRoom(c, st, n))
            && (p.Ok? ==> p.value.code == st.code && p.value.frames == st.frames)
  {
    hide Height;
  }

  lemma InlineRoom(c: Context, st: State, op: Op)
    requires Inline(op) && Validity.Open(st) && WordLen(c.sig.params) <= 0xFF
    ensures Roomy(c, st, CompileOp(c, st, op), OpWords(op), OpRoom(c, st, op))
  {
    NameExactly(c, st, op);
    if Named(c, op) {
      hide Fits, PopTypes, PushResult, CompileOp, EmittedBy, TakenBy, GivenBy, OpRoom, OpWords, NameRoom, PushRoom;
      InlineShape(c, st, op);
      EmittedWords(c, op);
      InlineCounts(c, st, op);
      TakeTypes(st, TakenBy(c, op));
      GiveExactly(c, st, |TakenBy(c, op)|, GivenBy(c, op));
    }
  }

  lemma EmitRoom(c: Context, st: State, ws: seq<Word>)
    ensures Emit(c, st, ws) ==
            if |st.code| + |ws| > AllWords(c) then Result.Err(OutOfMemory) else Result.Ok(st.(code := st.code + ws))
  {
  }

  /** `nop`, `unreachable`, `drop` and `return`: nothing but words. */
  lemma StopRoom(c: Context, st: State, op: Op)
    requires (op.Nop? || op.Unreachable? || op.Drop? || op.Return?) && Validity.Open(st)
    ensures Roomy(c, st, CompileOp(c, st, op), OpWords(op), true)
  {
    hide PopResult, Imm8;
    if op.Return? { TakeResult(st, c.sig.result); }
    if op.Drop? { TakeOne(st, Unknown); }
  }

  lemma SelectRoom(c: Context, st: State)
    requires Validity.Open(st)
    ensures Roomy(c, st, CompileOp(c, st, Op.Select), 1, PushRoom(c, st, 3))
  {
    hide PopExpect, Height, Imm8, TypeTag;
    TakeOne(st, Known(ValType.I32));
    TakeNext(st, 1);
    TakeNext(st, 2);
    var p := PopType(st, ValType.I32);
    if p.Ok? {
      TakeAny(p.value);
      if PopAny(p.value).Ok? {
        hide PopAny;
        var (st2, t1) := PopAny(p.value).value;
        TakeNext(p.value, 1);
        TakeOne(st2, t1);
      }
    }
  }

  lemma TakeAny(st: State)
    requires Validity.Open(st)
    ensures var r := PopAny(st);
            if r.Err? then Untyped(r.error) else r.value.0 == st.(values := st.values[..Left(st, 1)])
  {
    assert st.values[..|st.values|] == st.values;
  }

  lemma BrRoom(c: Context, st: State, l: nat, lo: nat)
    requires StackOk(st) && ChainsOk(st, lo) && OptionsOk(c.options)
    ensures Roomy(c, st, CompileBr(c, st, l), 3, SlotRoom(st, l, |st.code| + 1, st.values))
  {
    hide StackOk, ChainsOk, WriteLabelTarget, PopResult, Imm8, WordsAbove;
    var ws := [Imm8(BR, 0)];
    FitsOpen(st);
    EmitRoom(c, st, ws);
    if Emit(c, st, ws).Ok? {
      var st1 := Emit(c, st, ws).value;
      Emitted(c, st, ws, lo);
      LabelRoom(c, st1, l, lo);
      if WriteLabelTarget(c, st1, l).Ok? {
        var (st2, r) := WriteLabelTarget(c, st1, l).value;
        FitsOpen(st2);
        TakeResult(st2, r);
      }
    }
  }

  /** Emitting keeps what is known of the frames. */
  lemma Emitted(c: Context, st: State, ws: seq<Word>, lo: nat)
    requires StackOk(st) && ChainsOk(st, lo) && OptionsOk(c.options) && Emit(c, st, ws).Ok?
    ensures StackOk(Emit(c, st, ws).value) && ChainsOk(Emit(c, st, ws).value, lo)
  {
    hide StackOk, ChainsOk, Extends;
    EmitOk(c, st, ws);
    EmitExtends(c, st, ws, lo);
    ExtendsElim(st, Emit(c, st, ws).value, lo);
  }

  /** Writing a slot. */
  lemma LabelRoom(c: Context, st: State, l: nat, lo: nat)
    requires StackOk(st) && ChainsOk(st, lo) && OptionsOk(c.options)
    ensures var r := WriteLabelTarget(c, st, l);
            && (r.Ok? ==>
                  && SlotRoom(st, l, |st.code|, st.values)
                  && |r.value.0.code| == |st.code| + 2 <= AllWords(c) && |r.value.0.frames| == |st.frames|
                  && r.value.0.values == st.values && StackOk(r.value.0) && ChainsOk(r.value.0, lo)
                  && l < |st.frames| && r.value.1 == LabelType(c, st, |st.frames| - 1 - l)
                  && Innermost(r.value.0).height == Innermost(st).height)
            && (r.Err? && SlotRoom(st, l, |st.code|, st.values) && |st.code| + 2 <= AllWords(c) ==> !Limit(r.error))
  {
    hide WordsAbove, StackOk, ChainsOk, StackStep, Extends;
    LabelErrorsExactly(c, st, l, lo);
    if WriteLabelTarget(c, st, l).Ok? {
      LabelWords(c, st, l);
      LabelOk(c, st, l);
      LabelExtends(c, st, l, lo);
      ExtendsElim(st, WriteLabelTarget(c, st, l).value.0, lo);
      SameHeight(st, WriteLabelTarget(c, st, l).value.0);
    }
  }

  lemma SameHeight(st: State, st': State)
    requires StackStep(st, st')
    ensures Innermost(st').height == Innermost(st).height
  {
  }

  lemma LabelWords(c: Context, st: State, l: nat)
    requires WriteLabelTarget(c, st, l).Ok?
    ensures |WriteLabelTarget(c, st, l).value.0.code| == |st.code| + 2
  {
    hide Pack, Above, JumpOffset;
  }

  lemma BrIfRoom(c: Context, st: State, l: nat, lo: nat)
    requires StackOk(st) && ChainsOk(st, lo) && OptionsOk(c.options)
    ensures Roomy(c, st, CompileBrIf(c, st, l), 3, OpRoom(c, st, Op.BrIf(l)))
  {
    hide StackOk, ChainsOk, WriteLabelTarget, PopResult, PushResult, Imm8, WordsAbove, PopExpect, StackStep;
    var ws := [Imm8(BR_IF, 0)];
    FitsOpen(st);
    TakeOne(st, Known(ValType.I32));
    if PopType(st, ValType.I32).Ok? {
      var st0 := PopType(st, ValType.I32).value;
      Taken(st, st0, lo);
      FitsOpen(st0);
      EmitRoom(c, st0, ws);
      if Emit(c, st0, ws).Ok? {
        var st1 := Emit(c, st0, ws).value;
        Emitted(c, st0, ws, lo);
        LabelRoom(c, st1, l, lo);
        if WriteLabelTarget(c, st1, l).Ok? {
          var (st2, r) := WriteLabelTarget(c, st1, l).value;
          FitsOpen(st2);
          TakeResult(st2, r);
          TakeNext(st, 1);
          GiveExactly(c, st2, ResultCount(r), r);
        }
      }
    }
  }

  lemma Taken(st: State, st0: State, lo: nat)
    requires StackOk(st) && ChainsOk(st, lo) && Validity.Open(st) && st0 == st.(values := st.values[..Left(st, 1)])
    ensures StackOk(st0) && ChainsOk(st0, lo)
  {
    PoppedOk(st, st0);
    assert SameCode(st, st0);
    hide ChainsOk, Extends;
    ExtendsSame(st, st0, lo);
    ExtendsElim(st, st0, lo);
  }

  // ----- branch tables -----

  /** What writing a slot does to the frames. */
  predicate SlotWritten(st: State, st': State, l: nat) {
    && l < |st.frames| && st'.values == st.values && |st'.code| == |st.code| + 2
    && var i := |st.frames| - 1 - l;
       st'.frames == if i == 0 || st.frames[i].kind.Loop? then st.frames
                     else st.frames[i := st.frames[i].(target := |st.code|)]
  }

  lemma LabelWrites(c: Context, st: State, l: nat)
    requires WriteLabelTarget(c, st, l).Ok?
    ensures SlotWritten(st, WriteLabelTarget(c, st, l).value.0, l)
  {
    hide Pack, Above, JumpOffset;
  }

  lemma FirstCase(st: State, ls: seq<nat>, base: int)
    requires ls != []
    ensures CaseRoom(st, ls, 0, base) <==> SlotRoom(st, ls[0], base, st.values)
  {
  }

  /** Behind the first case the others have the room they had. */
  lemma LaterCase(st: State, st': State, ls: seq<nat>, k: nat)
    requires ls != [] && SlotWritten(st, st', ls[0]) && 1 <= k < |ls| <= 0x1_0000 && |st.code| < 0x8000_0000
    requires SlotRoom(st, ls[0], |st.code|, st.values)
    ensures CaseRoom(st', ls[1..], k - 1, |st.code| + 2) <==> CaseRoom(st, ls, k, |st.code|)
  {
    hide WordsAbove;
    assert ls[..k] == [ls[0]] + ls[1..][..k - 1];
  }

  lemma LaterCases(st: State, st': State, ls: seq<nat>)
    requires ls != [] && SlotWritten(st, st', ls[0]) && |ls| <= 0x1_0000 && |st.code| < 0x8000_0000
    requires SlotRoom(st, ls[0], |st.code|, st.values)
    ensures CasesRoom(st, ls, |st.code|) <==> CasesRoom(st', ls[1..], |st'.code|)
  {
    assert |st'.code| == |st.code| + 2;
    hide CaseRoom, SlotRoom, SlotWritten;
    FirstCase(st, ls, |st.code|);
    forall k | 1 <= k < |ls| ensures CaseRoom(st', ls[1..], k - 1, |st.code| + 2) <==> CaseRoom(st, ls, k, |st.code|) {
      LaterCase(st, st', ls, k);
    }
    if CasesRoom(st, ls, |st.code|) {
      forall k | 0 <= k < |ls[1..]| ensures CaseRoom(st', ls[1..], k, |st'.code|) {
        assert CaseRoom(st, ls, k + 1, |st.code|);
      }
    }
    if CasesRoom(st', ls[1..], |st'.code|) {
      forall k | 0 <= k < |ls| ensures CaseRoom(st, ls, k, |st.code|) {
        if k > 0 { assert CaseRoom(st', ls[1..], k - 1, |st'.code|); }
      }
    }
  }

  lemma NoCases(st: State, base: int)
    ensures CasesRoom(st, [], base)
  {
  }

  lemma HeadCase(st: State, ls: seq<nat>, base: int)
    requires ls != [] && CasesRoom(st, ls, base)
    ensures CaseRoom(st, ls, 0, base)
  {
  }

  lemma ChainsShort(st: State, lo: nat)
    requires ChainsOk(st, lo)
    ensures |st.code| < 0x8000_0000
  {
  }

  /** The type noted for a table plays no part. */
  lemma TableSame(st1: State, st2: State, ls: seq<nat>, d: nat, lo: nat)
    requires st2 == st1.(table := st2.table) && StackOk(st1) && ChainsOk(st1, lo)
    ensures StackOk(st2) && ChainsOk(st2, lo)
    ensures CasesRoom(st2, ls, |st2.code|) <==> CasesRoom(st1, ls, |st1.code|)
    ensures CaseRoom(st2, ls + [d], |ls|, |st2.code|) <==> CaseRoom(st1, ls + [d], |ls|, |st1.code|)
  {
    hide CaseRoom, WordsAbove;
    CodeOnlyOk(st1, st2);
    forall k | 0 <= k < |ls| ensures CaseRoom(st2, ls, k, |st2.code|) <==> CaseRoom(st1, ls, k, |st1.code|) {
      CaseSame(st1, st2, ls, k);
    }
    CaseSame(st1, st2, ls + [d], |ls|);
    hide ChainsOk, StackOk;
    assert SameCode(st1, st2);
    hide Extends;
    ExtendsSame(st1, st2, lo);
    ExtendsElim(st1, st2, lo);
  }

  lemma CaseSame(st1: State, st2: State, ls: seq<nat>, k: nat)
    requires st2 == st1.(table := st2.table) && k < |ls|
    ensures CaseRoom(st2, ls, k, |st2.code|) <==> CaseRoom(st1, ls, k, |st1.code|)
  {
    hide WordsAbove;
  }

  /** The cases of a table, and the slot `d` behind them. */
  lemma {:induction false} TableRoom(c: Context, st: State, ls: seq<nat>, d: nat, lo: nat)
    requires StackOk(st) && ChainsOk(st, lo) && OptionsOk(c.options) && |ls| <= 0xFFFF
    ensures var r := TableBranches(c, st, ls);
            && (r.Ok? ==>
                  && CasesRoom(st, ls, |st.code|) && |r.value.code| == |st.code| + 2 * |ls|
                  && (CaseRoom(st, ls + [d], |ls|, |st.code|) <==> SlotRoom(r.value, d, |r.value.code|, r.value.values))
                  && StackOk(r.value) && ChainsOk(r.value, lo)
                  && r.value.values == st.values && |r.value.frames| == |st.frames|
                  && Innermost(r.value).height == Innermost(st).height)
            && (r.Err? && CasesRoom(st, ls, |st.code|) && |st.code| + 2 * |ls| <= AllWords(c) ==> !Limit(r.error))
    decreases |ls|
  {
    hide StackOk, ChainsOk, WriteLabelTarget, SlotRoom, CaseRoom, SlotWritten, CasesRoom;
    if ls == [] {
      FirstCase(st, [d], |st.code|);
      assert ls + [d] == [d];
      NoCases(st, |st.code|);
    } else {
      FirstCase(st, ls, |st.code|);
      if CasesRoom(st, ls, |st.code|) { HeadCase(st, ls, |st.code|); }
      LabelRoom(c, st, ls[0], lo);
      if WriteLabelTarget(c, st, ls[0]).Ok? {
        var (st1, t) := WriteLabelTarget(c, st, ls[0]).value;
        LabelWrites(c, st, ls[0]);
        ChainsShort(st, lo);
        LaterCases(st, st1, ls);
        assert (ls + [d])[1..] == ls[1..] + [d];
        LaterCase(st, st1, ls + [d], |ls|);
        var st2 := CheckTable(st1, t);
        if st2.Ok? {
          TableSame(st1, st2.value, ls[1..], d, lo);
          TableRoom(c, st2.value, ls[1..], d, lo);
        }
      }
    }
  }

  lemma SplitCases(st: State, ls: seq<nat>, d: nat, base: int)
    ensures CasesRoom(st, ls + [d], base) <==> CasesRoom(st, ls, base) && CaseRoom(st, ls + [d], |ls|, base)
  {
    hide CaseRoom;
    forall k | 0 <= k < |ls| ensures CaseRoom(st, ls + [d], k, base) <==> CaseRoom(st, ls, k, base) {
      FrontCase(st, ls, d, k, base);
    }
    if CasesRoom(st, ls + [d], base) {
      assert CaseRoom(st, ls + [d], |ls|, base);
      forall k | 0 <= k < |ls| ensures CaseRoom(st, ls, k, base) {
        assert CaseRoom(st, ls + [d], k, base);
      }
    }
    if CasesRoom(st, ls, base) && CaseRoom(st, ls + [d], |ls|, base) {
      forall k | 0 <= k < |ls + [d]| ensures CaseRoom(st, ls + [d], k, base) {
        if k < |ls| { assert CaseRoom(st, ls, k, base); }
      }
    }
  }

  lemma FrontCase(st: State, ls: seq<nat>, d: nat, k: nat, base: int)
    requires k < |ls|
    ensures CaseRoom(st, ls + [d], k, base) <==> CaseRoom(st, ls, k, base)
  {
    assert (ls + [d])[..k] == ls[..k];
  }

  /** Cases depend on the operands and frames only. */
  lemma CasesSame(st: State, st': State, ls: seq<nat>, base: int)
    requires st'.values == st.values && st'.frames == st.frames
    ensures CasesRoom(st', ls, base) <==> CasesRoom(st, ls, base)
  {
    hide WordsAbove;
    forall k | 0 <= k < |ls| ensures CaseRoom(st', ls, k, base) <==> CaseRoom(st, ls, k, base) {
    }
  }

  lemma BrTableRoom(c: Context, st: State, ls: seq<nat>, d: nat, lo: nat)
    requires StackOk(st) && ChainsOk(st, lo) && OptionsOk(c.options)
    ensures Roomy(c, st, CompileBrTable(c, st, ls, d), OpWords(Op.BrTable(ls, d)), OpRoom(c, st, Op.BrTable(ls, d)))
  {
    hide StackOk, ChainsOk, WriteLabelTarget, PopExpect, CaseRoom, CasesRoom, TableBranches, Imm8Or16, SlotRoom;
    hide CheckAndClearTable, PopResult;
    FitsOpen(st);
    TakeOne(st, Known(ValType.I32));
    if PopType(st, ValType.I32).Ok? && |ls| <= 0xFFFF {
      var st1 := PopType(st, ValType.I32).value;
      Taken(st, st1, lo);
      var ws := Imm8Or16(BR_TABLE, |ls|);
      HeadWords(|ls|);
      EmitRoom(c, st1, ws);
      SplitCases(st1, ls, d, |st.code| + |ws|);
      if Emit(c, st1, ws).Ok? {
        var st2 := Emit(c, st1, ws).value;
        CasesSame(st1, st2, ls + [d], |st2.code|);
        SplitCases(st2, ls, d, |st2.code|);
        Emitted(c, st1, ws, lo);
        TableRoom(c, st2, ls, d, lo);
        if TableBranches(c, st2, ls).Ok? { DefaultRoom(c, TableBranches(c, st2, ls).value, d, lo); }
      }
    }
  }

  lemma HeadWords(n: Word)
    ensures |Imm8Or16(BR_TABLE, n)| == if n < 0xFF then 1 else 2
  {
  }

  /** The default, and the end of the table. */
  lemma DefaultRoom(c: Context, st: State, d: nat, lo: nat)
    requires StackOk(st) && ChainsOk(st, lo) && OptionsOk(c.options)
    ensures var r := (var (st4, t) :- WriteLabelTarget(c, st, d);
                      var st5 :- CheckAndClearTable(st4, t);
                      var st6 :- PopResult(st5, t);
                      Result.Ok(MarkUnreachable(st6)));
            Roomy(c, st, r, 2, SlotRoom(st, d, |st.code|, st.values))
  {
    hide StackOk, ChainsOk, WriteLabelTarget, SlotRoom, PopResult;
    LabelRoom(c, st, d, lo);
    if WriteLabelTarget(c, st, d).Ok? {
      var (st4, t) := WriteLabelTarget(c, st, d).value;
      FitsOpen(st4);
      if CheckAndClearTable(st4, t).Ok? {
        var st5 := CheckAndClearTable(st4, t).value;
        assert Validity.Open(st5);
        TakeResult(st5, t);
      }
    }
  }

  /** One instruction: an accepted one had room; one that has room is not refused for a limit. */
  lemma OpRoomExactly(c: Context, st: State, op: Op, lo: nat)
    requires StackOk(st) && ChainsOk(st, lo) && OptionsOk(c.options) && WordLen(c.sig.params) <= 0xFF
    ensures Validity.Open(st) && Roomy(c, st, CompileOp(c, st, op), OpWords(op), OpRoom(c, st, op))
  {
    hide StackOk, ChainsOk, CompileBr, CompileBrIf, CompileBrTable, Roomy, SlotRoom, PushRoom;
    FitsOpen(st);
    if Inline(op) {
      hide OpRoom, OpWords, CompileOp;
      InlineRoom(c, st, op);
    } else {
      match op
      case Select => SelectRoom(c, st);
      case Br(l) => BrRoom(c, st, l, lo);
      case BrIf(l) => BrIfRoom(c, st, l, lo);
      case BrTable(ls, d) => BrTableRoom(c, st, ls, d, lo);
      case _ => StopRoom(c, st, op);
    }
  }

  // ----- blocks -----

  /** A backpatch of the slots `s` to the address `pc`. */
  predicate PatchRoom(c: Context, s: seq<int>, pc: int) {
    && (forall b :: b in s ==> Reaches(b, pc))
    && (|s| > 1 && c.options.maxIterations.Some? ==> |s| - 1 <= c.options.maxIterations.value)
  }

  function InnerSlots(st: State): seq<int>
    requires st.frames != []
  {
    Slots(st, |st.frames| - 1)
  }

  /** Room for `end`: the open slots are patched, and a result is pushed. */
  predicate LeaveRoom(c: Context, st: State)
    requires st.frames != []
  {
    PatchRoom(c, InnerSlots(st), |st.code|) && (Innermost(st).out.Some? ==> Innermost(st).height < c.options.maxStack)
  }

  /** Room for `else`: its branch over the else part is one more slot, and the last slot is sent to the else
      part, which starts behind that branch. */
  predicate TurnRoom(c: Context, st: State)
    requires st.frames != []
  {
    var s := InnerSlots(st);
    && SlotRoom(st, 0, |st.code| + 1, st.values)
    && s != [] && Reaches(s[|s| - 1], |st.code| + 3)
    && (c.options.maxIterations.Some? ==> |s| <= c.options.maxIterations.value)
  }

  lemma EnterRoom(c: Context, st: State, rt: ResultType, loop: bool)
    ensures var r := if loop then EnterLoop(c, st, rt) else EnterBlock(c, st, rt);
            && (r.Err? <==> |st.frames| >= c.options.maxFrames)
            && (r.Ok? ==> r.value.code == st.code && |r.value.frames| == |st.frames| + 1)
  {
  }

  lemma EnterIfRoom(c: Context, st: State, rt: ResultType)
    requires Validity.Open(st)
    ensures var r := EnterIf(c, st, rt);
            && (r.Ok? ==>
                  && |r.value.code| == |st.code| + 3 <= AllWords(c)
                  && |r.value.frames| == |st.frames| + 1 <= c.options.maxFrames)
            && (r.Err? && |st.code| + 3 <= AllWords(c) && |st.frames| < c.options.maxFrames ==> !Limit(r.error))
  {
    hide PopExpect, Imm8, Pack;
    TakeOne(st, Known(ValType.I32));
  }

  /** The part shared by `end` and `else`. */
  lemma DropRoom(st: State)
    requires Validity.Open(st)
    ensures var r := DropFrame(st);
            if r.Err? then !Limit(r.error)
            else
              && r.value.code == st.code && r.value.frames == st.frames[..|st.frames| - 1]
              && |r.value.values| == Innermost(st).height
  {
    hide PopResult;
    TakeResult(st, Innermost(st).out);
  }

  lemma ExitRoom(c: Context, st: State, lo: nat)
    requires StackOk(st) && ChainsOk(st, lo) && |st.frames| >= 2
    ensures var r := ExitBlock(c, st);
            && (r.Ok? ==> |r.value.code| == |st.code| && |r.value.frames| == |st.frames| - 1 && LeaveRoom(c, st))
            && (r.Err? && LeaveRoom(c, st) ==> !Limit(r.error))
  {
    hide StackOk, DropFrame, Backpatch, Height;
    FitsOpen(st);
    DropRoom(st);
    var f := Innermost(st);
    assert FrameOk(st, |st.frames| - 1, lo);
    if !f.kind.Loop? && f.target != SENTINEL {
      BackpatchLimit(c.options, st.code, f.target, |st.code|, 0, lo);
      if Backpatch(c.options, st.code, f.target, |st.code|, 0).Ok? {
        BackpatchSlots(c.options, st.code, f.target, |st.code|, 0, lo);
      }
    }
    hide Chain, ChainOk;
    if DropFrame(st).Ok? && PopControl(c, st).Ok? && f.out.Some? {
      PushExactly(c, PopControl(c, st).value.0, Known(f.out.value));
    }
  }

  /** `else` behind its branch. */
  lemma ElseRestRoom(c: Context, st3: State, lo: nat)
    requires StackOk(st3) && ChainsOk(st3, lo) && |st3.frames| >= 2 && Innermost(st3).kind.If?
    requires |InnerSlots(st3)| > 1
    ensures var r := ElseRest(c, st3);
            var s := InnerSlots(st3);
            var room := Reaches(s[|s| - 1], |st3.code|)
                        && (c.options.maxIterations.Some? ==> |s| - 1 <= c.options.maxIterations.value);
            && (r.Ok? ==> |r.value.code| == |st3.code| && |r.value.frames| == |st3.frames| && room)
            && (r.Err? && room && |st3.frames| <= c.options.maxFrames ==> !Limit(r.error))
  {
    hide StackOk, DropFrame, SplitTail;
    FitsOpen(st3);
    DropRoom(st3);
    var f := Innermost(st3);
    assert FrameOk(st3, |st3.frames| - 1, lo);
    SplitTailLimit(c.options, st3.code, f.target, f.target, SENTINEL, |st3.code|, 0, lo);
    SplitLength(c.options, st3.code, f.target, f.target, SENTINEL, |st3.code|, 0);
  }

  lemma {:induction false} SplitLength(
    o: Options, code: seq<Word>, head: int, a: int, prev: int, pc: int, n: nat)
    ensures var r := SplitTail(o, code, head, a, prev, pc, n); r.Ok? ==> |r.value.0| == |code|
    decreases if a < 0 then 0 else a + 1
  {
    hide Slot, Jump, WithJump, FitsJump;
    if SlotIn(code, a) && Jump(Slot(code, a)) < 0 {
      SplitLength(o, code, head, a + Jump(Slot(code, a)), a, pc, n + 1);
    }
  }

  /** The branch that `else` writes is the newest slot of the if. */
  lemma ElseSlots(c: Context, st: State, lo: nat)
    requires OptionsOk(c.options) && ChainsOk(st, lo) && ElseBranch(c, st).Ok?
    requires |st.frames| >= 2 && Innermost(st).kind.If?
    ensures var st3 := ElseBranch(c, st).value;
            && st3.frames != [] && InnerSlots(st3) == [|st.code| + 1] + InnerSlots(st) && |InnerSlots(st)| > 0
  {
    hide ChainsOk, SlotLinked, Pack, Above, Slots;
    var ws := [Imm8(BR, 0)];
    var st1 := Emit(c, st, ws).value;
    Appended(st, st1, lo);
    LabelLinked(c, st1, 0, lo);
    var st3 := WriteLabelTarget(c, st1, 0).value.0;
    LinkSlots(st1, st3, |st.frames| - 1, lo);
    IfSlots(st, lo);
    LabelWrites(c, st1, 0);
  }

  lemma Appended(st: State, st1: State, lo: nat)
    requires ChainsOk(st, lo) && st1.frames == st.frames && st.code <= st1.code && |st1.code| < 0x8000_0000
    ensures ChainsOk(st1, lo) && forall i :: 0 <= i < |st.frames| ==> Slots(st1, i) == Slots(st, i)
  {
    AppendSlots(st, st1, lo);
  }

  lemma IfSlots(st: State, lo: nat)
    requires ChainsOk(st, lo) && |st.frames| >= 2 && Innermost(st).kind.If?
    ensures |InnerSlots(st)| > 0
  {
    assert FrameOk(st, |st.frames| - 1, lo);
  }

  lemma ElseRoom(c: Context, st: State, lo: nat)
    requires StackOk(st) && ChainsOk(st, lo) && OptionsOk(c.options) && |st.frames| >= 2 && Innermost(st).kind.If?
    ensures var r := Else(c, st);
            && (r.Ok? ==>
                  && |r.value.code| == |st.code| + 3 <= AllWords(c) && |r.value.frames| == |st.frames|
                  && TurnRoom(c, st))
            && (r.Err? && TurnRoom(c, st) && |st.code| + 3 <= AllWords(c) && |st.frames| <= c.options.maxFrames ==>
                  !Limit(r.error))
  {
    hide StackOk, ChainsOk, WriteLabelTarget, Imm8, SlotRoom, ElseRest, Else, Slots, StackStep;
    var ws := [Imm8(BR, 0)];
    ElseParts(c, st);
    EmitRoom(c, st, ws);
    if Emit(c, st, ws).Ok? {
      var st1 := Emit(c, st, ws).value;
      Emitted(c, st, ws, lo);
      LabelRoom(c, st1, 0, lo);
      SlotSame(st, st1, 0);
      if WriteLabelTarget(c, st1, 0).Ok? {
        var st3 := WriteLabelTarget(c, st1, 0).value.0;
        ElseSlots(c, st, lo);
        LabelWrites(c, st1, 0);
        ElseRestRoom(c, st3, lo);
      }
    }
  }

  lemma SlotSame(st: State, st1: State, l: nat)
    requires st1.frames == st.frames && st1.values == st.values
    ensures SlotRoom(st1, l, |st1.code|, st1.values) <==> SlotRoom(st, l, |st1.code|, st.values)
  {
  }

  // ----- which error -----

  lemma {:induction false} PopErrors(st: State, ts: seq<ValType>)
    ensures PopTypes(st, ts).Err? ==> Untyped(PopTypes(st, ts).error)
    decreases |ts|
  {
    if ts != [] && PopType(st, ts[|ts| - 1]).Ok? { PopErrors(PopType(st, ts[|ts| - 1]).value, ts[..|ts| - 1]); }
  }

  /** The errors of writing one slot or many. */
  predicate SlotError(e: Error) {
    || e == InvalidLabelIndex || e == LabelStackJumpTooDeep || e == LabelJumpTooLarge || e == OutOfMemory
    || e == BrTableResultTypeMismatch
  }

  lemma SlotErrors(c: Context, st: State, l: nat)
    ensures WriteLabelTarget(c, st, l).Err? ==> SlotError(WriteLabelTarget(c, st, l).error)
  {
    hide Pack, Above, FitsJump;
  }

  lemma {:induction false} CasesErrors(c: Context, st: State, ls: seq<nat>)
    ensures TableBranches(c, st, ls).Err? ==> SlotError(TableBranches(c, st, ls).error)
    decreases |ls|
  {
    hide WriteLabelTarget;
    if ls != [] {
      SlotErrors(c, st, ls[0]);
      if WriteLabelTarget(c, st, ls[0]).Ok? {
        var (st1, r) := WriteLabelTarget(c, st, ls[0]).value;
        if CheckTable(st1, r).Ok? { CasesErrors(c, CheckTable(st1, r).value, ls[1..]); }
      }
    }
  }

  lemma InlineErrors(c: Context, st: State, op: Op)
    requires Inline(op) && WordLen(c.sig.params) <= 0xFF
    ensures var r := CompileOp(c, st, op);
            if NameRoom(c, op) then
              r.Err? ==> Untyped(r.error) || r.error == OutOfMemory || r.error == FunctionIdxOutOfRange
            else r == Result.Err(LocalIdxOutOfRange)
  {
    hide PopTypes, PushOperand, GetLocal, LocalRoom, NumParams, Encode, PopType, Imm8, ConstWords;
    if op.LocalGet? || op.LocalSet? || op.LocalTee? { LocalExactly(c, op.x); }
    if Named(c, op) {
      InlineShape(c, st, op);
      hide CompileOp, TakenBy, GivenBy, EmittedBy;
      PopErrors(st, TakenBy(c, op));
      if PopTypes(st, TakenBy(c, op)).Ok? { GiveErrors(c, PopTypes(st, TakenBy(c, op)).value, GivenBy(c, op)); }
    }
  }

  lemma GiveErrors(c: Context, st: State, r: ResultType)
    ensures PushResult(c, st, r).Err? ==> PushResult(c, st, r).error == OutOfMemory
  {
  }

  lemma BranchErrors(c: Context, st: State, op: Op)
    requires IsBranch(op)
    ensures var r := CompileOp(c, st, op);
            if op.BrTable? && PopType(st, ValType.I32).Ok? && |op.ls| > 0xFFFF then r == Result.Err(IdxTooLarge)
            else r.Err? ==> SlotError(r.error) || Untyped(r.error)
  {
    hide WriteLabelTarget, TableBranches, PopExpect, Imm8, Imm8Or16, PopResult, PushResult;
    TypeErrors(st, Known(ValType.I32));
    match op
    case Br(l) => BrErrors(c, st, l, BR);
    case BrIf(l) => if PopType(st, ValType.I32).Ok? { BrErrors(c, PopType(st, ValType.I32).value, l, BR_IF); }
    case BrTable(ls, d) => if PopType(st, ValType.I32).Ok? { TableErrors(c, PopType(st, ValType.I32).value, ls, d); }
  }

  lemma OtherErrors(c: Context, st: State, op: Op)
    requires !Inline(op) && !IsBranch(op)
    ensures var r := CompileOp(c, st, op); r.Err? ==> Untyped(r.error) || r.error == OutOfMemory
  {
    hide PopExpect, PopAny, PopResult, Height, Imm8, TypeTag, CompileSelect;
    TypeErrors(st, Unknown);
    ResultErrors(st, c.sig.result);
    SelectErrors(c, st);
  }

  /** An instruction is refused for its index exactly when it is a table of over 65,535 cases, or names a
      local there is no room for; slots are the business of branches. */
  lemma OpErrors(c: Context, st: State, op: Op)
    requires WordLen(c.sig.params) <= 0xFF
    ensures var r := CompileOp(c, st, op);
            && (r == Result.Err(IdxTooLarge) <==> op.BrTable? && PopType(st, ValType.I32).Ok? && |op.ls| > 0xFFFF)
            && (r == Result.Err(LocalIdxOutOfRange) <==>
                  (op.LocalGet? || op.LocalSet? || op.LocalTee?) && !LocalRoom(c, op.x))
            && (r == Result.Err(LabelStackJumpTooDeep) || r == Result.Err(LabelJumpTooLarge) ==> IsBranch(op))
            && r != Result.Err(TooManyLocals) && r != Result.Err(StackTooLarge)
            && r != Result.Err(PossibleBackpatchCycle)
  {
    hide CompileOp, LocalRoom, PopType;
    if Inline(op) {
      InlineErrors(c, st, op);
    } else if IsBranch(op) {
      BranchErrors(c, st, op);
    } else {
      OtherErrors(c, st, op);
    }
  }

  lemma TypeErrors(st: State, want: Operand)
    ensures PopExpect(st, want).Err? ==> Untyped(PopExpect(st, want).error)
    ensures PopAny(st).Err? ==> Untyped(PopAny(st).error)
  {
  }

  lemma ResultErrors(st: State, r: ResultType)
    ensures PopResult(st, r).Err? ==> Untyped(PopResult(st, r).error)
  {
  }

  lemma BrErrors(c: Context, st: State, l: nat, opcode: U8)
    ensures var e := Emit(c, st, [Imm8(opcode, 0)]);
            && (e.Err? ==> SlotError(e.error))
            && (e.Ok? ==>
                  var w := WriteLabelTarget(c, e.value, l);
                  && (w.Err? ==> SlotError(w.error))
                  && (w.Ok? ==>
                        var p := PopResult(w.value.0, w.value.1);
                        && (p.Err? ==> Untyped(p.error))
                        && (p.Ok? ==>
                              var q := PushResult(c, p.value, w.value.1); q.Err? ==> q.error == OutOfMemory)))
  {
    hide WriteLabelTarget, PopResult, Height, Imm8;
    var e := Emit(c, st, [Imm8(opcode, 0)]);
    if e.Ok? {
      SlotErrors(c, e.value, l);
      if WriteLabelTarget(c, e.value, l).Ok? {
        var (st2, r) := WriteLabelTarget(c, e.value, l).value;
        ResultErrors(st2, r);
      }
    }
  }

  lemma TableErrors(c: Context, st: State, ls: seq<nat>, d: nat)
    ensures |ls| <= 0xFFFF ==>
              var r := (var st2 :- Emit(c, st, Imm8Or16(BR_TABLE, |ls|));
                        var st3 :- TableBranches(c, st2, ls);
                        var (st4, t) :- WriteLabelTarget(c, st3, d);
                        var st5 :- CheckAndClearTable(st4, t);
                        var st6 :- PopResult(st5, t);
                        Result.Ok(MarkUnreachable(st6)));
              r.Err? ==> SlotError(r.error) || Untyped(r.error)
  {
    hide WriteLabelTarget, PopResult, TableBranches, Imm8Or16;
    if |ls| <= 0xFFFF && Emit(c, st, Imm8Or16(BR_TABLE, |ls|)).Ok? {
      var st2 := Emit(c, st, Imm8Or16(BR_TABLE, |ls|)).value;
      CasesErrors(c, st2, ls);
      if TableBranches(c, st2, ls).Ok? {
        var st3 := TableBranches(c, st2, ls).value;
        SlotErrors(c, st3, d);
        if WriteLabelTarget(c, st3, d).Ok? {
          var (st4, t) := WriteLabelTarget(c, st3, d).value;
          if CheckAndClearTable(st4, t).Ok? { ResultErrors(CheckAndClearTable(st4, t).value, t); }
        }
      }
    }
  }

  lemma SelectErrors(c: Context, st: State)
    ensures var r := CompileSelect(c, st); r.Err? ==> Untyped(r.error) || r.error == OutOfMemory
  {
    hide PopExpect, PopAny, Height, Imm8, TypeTag;
    TypeErrors(st, Known(ValType.I32));
    if PopType(st, ValType.I32).Ok? {
      var st1 := PopType(st, ValType.I32).value;
      TypeErrors(st1, Unknown);
      if PopAny(st1).Ok? { TypeErrors(PopAny(st1).value.0, PopAny(st1).value.1); }
    }
  }
}
