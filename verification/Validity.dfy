/** What the compiler accepts: exactly the bodies that section 3.3 of the WebAssembly Core Specification
    1.0 calls valid, up to the limits of the implementation. The specification types a sequence
    declaratively, with any types at all behind an unconditional branch; the compiler runs once over the
    operand stack, with an operand of unknown type where code is unreachable. */
module Validity {
  import opened Values
  import opened Label
  import opened Ir
  import opened Wasm
  import opened Text
  import opened Chains
  import opened Frames
  import opened Extension
  import opened Typing
  import opened Locals

  // ----- the typing rules -----

  /** Some operands `ts` on top are replaced by `rs`. */
  predicate Takes(pre: seq<ValType>, ts: seq<ValType>, rs: seq<ValType>, post: seq<ValType>) {
    && |ts| <= |pre| && pre[|pre| - |ts|..] == ts && post == pre[..|pre| - |ts|] + rs
  }

  /** The operands `ts` are on top; whatever is under them plays no part, nor what comes after. */
  predicate Diverges(pre: seq<ValType>, ts: seq<ValType>) {
    |ts| <= |pre| && pre[|pre| - |ts|..] == ts
  }

  /** The result type of label `l`; `labels` lists them from the function's own inwards. */
  predicate LabelHas(labels: seq<ResultType>, l: nat, r: ResultType) {
    l < |labels| && labels[|labels| - 1 - l] == r
  }

  /** Sections 3.3.1 to 3.3.5: `op` takes a stack of types `pre` to one of types `post`. */
  predicate OpValid(c: Context, labels: seq<ResultType>, op: Op, pre: seq<ValType>, post: seq<ValType>) {
    match op
    case Nop => post == pre
    case Unreachable => true
    case Const(v) => post == pre + [v.Type()]
    case Num(o) => Takes(pre, NumParams(o), [NumResult(o)], post)
    case Drop => pre != [] && post == pre[..|pre| - 1]
    case Select =>
      |pre| >= 3 && Takes(pre, [pre[|pre| - 3], pre[|pre| - 3], ValType.I32], [pre[|pre| - 3]], post)
    case LocalGet(x) => x < |LocalTypes(c.sig, c.groups)| && post == pre + [LocalTypes(c.sig, c.groups)[x]]
    case LocalSet(x) => x < |LocalTypes(c.sig, c.groups)| && Takes(pre, [LocalTypes(c.sig, c.groups)[x]], [], post)
    case LocalTee(x) =>
      x < |LocalTypes(c.sig, c.groups)|
      && Takes(pre, [LocalTypes(c.sig, c.groups)[x]], [LocalTypes(c.sig, c.groups)[x]], post)
    case Br(l) => l < |labels| && Diverges(pre, ResultTypes(labels[|labels| - 1 - l]))
    case BrIf(l) =>
      l < |labels|
      && var ts := ResultTypes(labels[|labels| - 1 - l]); Takes(pre, ts + [ValType.I32], ts, post)
    case BrTable(ls, d) =>
      d < |labels|
      && (forall k :: 0 <= k < |ls| ==> LabelHas(labels, ls[k], labels[|labels| - 1 - d]))
      && Diverges(pre, ResultTypes(labels[|labels| - 1 - d]) + [ValType.I32])
    case Return => Diverges(pre, ResultTypes(c.sig.result))
    case Call(x) =>
      x < |c.index| && Takes(pre, c.index[x].sig.params, ResultTypes(c.index[x].sig.result), post)
  }

  /** Sections 3.3.5 and 3.3.6: a sequence under the labels `labels`. */
  ghost predicate CodeValid(c: Context, labels: seq<ResultType>, code: Code, pre: seq<ValType>, post: seq<ValType>)
    decreases code
  {
    match code
    case Done => post == pre
    case Plain(op, next) => exists mid :: OpValid(c, labels, op, pre, mid) && CodeValid(c, labels, next, mid, post)
    case Block(rt, body, next) =>
      && CodeValid(c, labels + [rt], body, [], ResultTypes(rt))
      && CodeValid(c, labels, next, pre + ResultTypes(rt), post)
    case Loop(rt, body, next) =>
      && CodeValid(c, labels + [None], body, [], ResultTypes(rt))
      && CodeValid(c, labels, next, pre + ResultTypes(rt), post)
    case If(rt, thn, next) =>
      && rt == None && pre != [] && pre[|pre| - 1] == ValType.I32
      && CodeValid(c, labels + [rt], thn, [], []) && CodeValid(c, labels, next, pre[..|pre| - 1], post)
    case IfElse(rt, thn, els, next) =>
      && pre != [] && pre[|pre| - 1] == ValType.I32
      && CodeValid(c, labels + [rt], thn, [], ResultTypes(rt)) && CodeValid(c, labels + [rt], els, [], ResultTypes(rt))
      && CodeValid(c, labels, next, pre[..|pre| - 1] + ResultTypes(rt), post)
  }

  /** Section 3.4.1: a function body. */
  ghost predicate FuncValid(c: Context, body: Code) {
    CodeValid(c, [c.sig.result], body, [], ResultTypes(c.sig.result))
  }

  // ----- limits -----

  /** A refusal for want of room, not of types: pages, control frames, operands, the fields of a slot,
      the iteration limit, 16-bit indices and offsets, the words of a frame. */
  predicate Limit(e: Error) {
    || e.OutOfMemory? || e.LabelStackJumpTooDeep? || e.LabelJumpTooLarge? || e.PossibleBackpatchCycle?
    || e.IdxTooLarge? || e.LocalIdxOutOfRange? || e.TooManyLocals? || e.StackTooLarge?
  }

  // ----- operands and types -----

  predicate Matches(o: Operand, t: ValType) { o.Unknown? || o == Known(t) }

  /** The operands of the innermost frame are the topmost ones of `ts`; in live code they are all. */
  predicate Fits(st: State, ts: seq<ValType>) {
    && st.frames != [] && Innermost(st).height <= |st.values|
    && var h := Innermost(st).height;
       var k := |st.values| - h;
       && k <= |ts| && (!Innermost(st).unreachable ==> k == |ts|)
       && forall i :: h <= i < |st.values| ==> Matches(st.values[i], ts[|ts| - |st.values| + i])
  }

  /** The frame of the innermost block starts inside the operand stack. */
  predicate Open(st: State) { st.frames != [] && Innermost(st).height <= |st.values| }

  lemma FitsSame(st: State, st': State, ts: seq<ValType>)
    requires st.frames != [] && st'.frames != [] && st'.values == st.values
    requires Innermost(st').height == Innermost(st).height && Innermost(st').unreachable == Innermost(st).unreachable
    ensures Fits(st', ts) <==> Fits(st, ts)
  {
  }

  lemma PopAnyFits(st: State, ts: seq<ValType>)
    requires Fits(st, ts) && ts != []
    ensures PopAny(st).Ok?
    ensures var (st1, o) := PopAny(st).value; Matches(o, ts[|ts| - 1]) && Fits(st1, ts[..|ts| - 1])
  {
  }

  lemma PopAnyBack(st: State, ts: seq<ValType>, t: ValType)
    requires Open(st) && PopAny(st).Ok? && Fits(PopAny(st).value.0, ts) && Matches(PopAny(st).value.1, t)
    ensures Fits(st, ts + [t])
  {
  }

  lemma PopExpectFits(st: State, ts: seq<ValType>, want: Operand)
    requires Fits(st, ts) && ts != [] && Matches(want, ts[|ts| - 1])
    ensures PopExpect(st, want).Ok?
    ensures var (st1, o) := PopExpect(st, want).value; Matches(o, ts[|ts| - 1]) && Fits(st1, ts[..|ts| - 1])
  {
    PopAnyFits(st, ts);
    hide PopAny, Fits;
  }

  lemma PopExpectBack(st: State, ts: seq<ValType>, want: Operand, t: ValType)
    requires Open(st) && PopExpect(st, want).Ok? && Fits(PopExpect(st, want).value.0, ts)
    requires Matches(PopExpect(st, want).value.1, t)
    ensures Fits(st, ts + [t]) && Matches(want, t)
  {
    hide Fits, PopAny, Open;
    PopAnyBack(st, ts, t);
  }

  /** Popping keeps the frame open. */
  lemma PopOpen(st: State, want: Operand)
    requires Open(st) && PopExpect(st, want).Ok?
    ensures Open(PopExpect(st, want).value.0)
  {
  }

  lemma {:induction false} PopTypesFits(st: State, base: seq<ValType>, ts: seq<ValType>)
    requires Fits(st, base + ts)
    ensures PopTypes(st, ts).Ok? && Fits(PopTypes(st, ts).value, base)
    decreases |ts|
  {
    hide Fits, PopExpect;
    if ts == [] {
      assert base + ts == base;
    } else {
      var (front, t) := (ts[..|ts| - 1], ts[|ts| - 1]);
      PopExpectFits(st, base + ts, Known(t));
      assert (base + ts)[..|base + ts| - 1] == base + front;
      PopTypesFits(PopType(st, t).value, base, front);
    }
  }

  lemma {:induction false} PopTypesBack(st: State, base: seq<ValType>, ts: seq<ValType>)
    requires Open(st) && PopTypes(st, ts).Ok? && Fits(PopTypes(st, ts).value, base)
    ensures Fits(st, base + ts)
    decreases |ts|
  {
    hide Fits, PopAny, Open;
    if ts == [] {
      assert base + ts == base;
    } else {
      var (front, t) := (ts[..|ts| - 1], ts[|ts| - 1]);
      PopOpen(st, Known(t));
      PopTypesBack(PopType(st, t).value, base, front);
      PopExpectBack(st, base + front, Known(t), t);
      assert base + ts == (base + front) + [t];
    }
  }

  lemma ResultIsTypes(st: State, r: ResultType)
    ensures PopResult(st, r) == PopTypes(st, ResultTypes(r))
  {
    hide PopType;
    if r.Some? {
      assert [r.value][..0] == [];
      var st1 := PopType(st, r.value);
      if st1.Ok? { assert PopTypes(st1.value, []) == st1; }
    }
  }

  lemma PushFits(c: Context, st: State, ts: seq<ValType>, o: Operand, t: ValType)
    requires Fits(st, ts) && Matches(o, t)
    ensures PushOperand(c, st, o).Ok? ==> Fits(PushOperand(c, st, o).value, ts + [t])
    ensures PushOperand(c, st, o).Err? ==> Limit(PushOperand(c, st, o).error)
  {
    hide Height;
  }

  lemma PushBack(c: Context, st: State, ts: seq<ValType>, o: Operand)
    requires Open(st) && PushOperand(c, st, o).Ok? && Fits(PushOperand(c, st, o).value, ts)
    ensures ts != [] && Matches(o, ts[|ts| - 1]) && Fits(st, ts[..|ts| - 1])
  {
    hide Height;
    var st' := PushOperand(c, st, o).value;
    assert st'.values[|st.values|] == o;
    assert forall i :: 0 <= i < |st.values| ==> st'.values[i] == st.values[i];
  }

  lemma PushResultFits(c: Context, st: State, ts: seq<ValType>, r: ResultType)
    requires Fits(st, ts)
    ensures PushResult(c, st, r).Ok? ==> Fits(PushResult(c, st, r).value, ts + ResultTypes(r))
    ensures PushResult(c, st, r).Err? ==> Limit(PushResult(c, st, r).error)
  {
    hide Fits, PushOperand;
    if r.Some? { PushFits(c, st, ts, Known(r.value), r.value); } else { assert ts + [] == ts; }
  }

  /** What lies under the results. */
  lemma PushResultBack(c: Context, st: State, ts: seq<ValType>, r: ResultType)
    requires Open(st) && PushResult(c, st, r).Ok? && Fits(PushResult(c, st, r).value, ts)
    ensures ResultCount(r) <= |ts| && ts == ts[..|ts| - ResultCount(r)] + ResultTypes(r)
    ensures Fits(st, ts[..|ts| - ResultCount(r)])
  {
    hide Fits, PushOperand, Open;
    if r.Some? {
      PushBack(c, st, ts, Known(r.value));
    } else {
      assert ts[..|ts|] == ts && ts + [] == ts;
    }
  }

  lemma MarkFits(st: State, ts: seq<ValType>)
    requires Open(st)
    ensures Fits(MarkUnreachable(st), ts)
  {
  }

  lemma EmitFits(c: Context, st: State, ws: seq<Word>, ts: seq<ValType>)
    requires st.frames != []
    ensures Emit(c, st, ws).Ok? ==> Emit(c, st, ws).value.frames != []
    ensures Emit(c, st, ws).Ok? ==> (Fits(Emit(c, st, ws).value, ts) <==> Fits(st, ts))
    ensures Emit(c, st, ws).Ok? ==> Emit(c, st, ws).value.table == st.table
    ensures Emit(c, st, ws).Err? ==> Limit(Emit(c, st, ws).error)
  {
    if Emit(c, st, ws).Ok? { FitsSame(st, Emit(c, st, ws).value, ts); }
  }

  // ----- labels -----

  /** The frames carry the result types of the labels. */
  predicate LabelsOk(c: Context, st: State, labels: seq<ResultType>) {
    |labels| == |st.frames| && forall i :: 0 <= i < |labels| ==> LabelType(c, st, i) == labels[i]
  }

  lemma LabelsKept(c: Context, st: State, st': State, labels: seq<ResultType>)
    requires LabelsOk(c, st, labels) && SameShape(st, st')
    ensures LabelsOk(c, st', labels)
  {
    forall i | 0 <= i < |labels| ensures LabelType(c, st', i) == labels[i] {
      assert LabelType(c, st, i) == labels[i];
    }
  }

  /** Writing the slot of a branch: only a limit can refuse it, and it leaves the operands alone. */
  lemma LabelFits(c: Context, st: State, l: nat, labels: seq<ResultType>, ts: seq<ValType>)
    requires StackOk(st) && LabelsOk(c, st, labels)
    ensures WriteLabelTarget(c, st, l).Err? && l < |labels| ==> Limit(WriteLabelTarget(c, st, l).error)
    ensures WriteLabelTarget(c, st, l).Ok? ==>
              var (st', r) := WriteLabelTarget(c, st, l).value;
              && LabelHas(labels, l, r) && StackOk(st') && StackStep(st, st') && LabelsOk(c, st', labels)
              && (Fits(st', ts) <==> Fits(st, ts)) && st'.table == st.table
  {
    if WriteLabelTarget(c, st, l).Ok? {
      LabelOk(c, st, l);
      var (st', r) := WriteLabelTarget(c, st, l).value;
      LabelTable(c, st, l);
      LabelsKept(c, st, st', labels);
      assert LabelType(c, st, |labels| - 1 - l) == labels[|labels| - 1 - l];
      FitsSame(st, st', ts);
    } else if l < |labels| {
      LabelErrors(c, st, l);
    }
  }

  lemma LabelTable(c: Context, st: State, l: nat)
    requires WriteLabelTarget(c, st, l).Ok?
    ensures l < |st.frames| && WriteLabelTarget(c, st, l).value.0.table == st.table
    ensures |WriteLabelTarget(c, st, l).value.0.frames| == |st.frames|
  {
    hide Pack, Above, JumpOffset, Words32;
  }

  lemma LabelErrors(c: Context, st: State, l: nat)
    requires l < |st.frames| && WriteLabelTarget(c, st, l).Err?
    ensures Limit(WriteLabelTarget(c, st, l).error)
  {
    hide Pack, Above, FitsJump, Words32;
  }

  /** What the compiler knows between two instructions. */
  predicate Ready(c: Context, st: State, labels: seq<ResultType>, lo: nat) {
    OptionsOk(c.options) && ChainsOk(st, lo) && st.table.None? && Sound(c, st, labels)
  }

  /** The part of it that does not depend on the code. */
  predicate Sound(c: Context, st: State, labels: seq<ResultType>) {
    WordLen(c.sig.params) <= 0xFF && StackOk(st) && LabelsOk(c, st, labels)
  }

  // ----- instructions that stay in line -----

  /** Pop, push, emit. */
  lemma InlineFits(
    c: Context, st: State, pre: seq<ValType>, ts: seq<ValType>, rs: ResultType, ws: seq<Word>, post: seq<ValType>)
    requires Fits(st, pre) && Takes(pre, ts, ResultTypes(rs), post)
    ensures PopTypes(st, ts).Ok?
    ensures var r := PushResult(c, PopTypes(st, ts).value, rs);
            && (r.Err? ==> Limit(r.error))
            && (r.Ok? ==> var e := Emit(c, r.value, ws); if e.Err? then Limit(e.error) else Fits(e.value, post))
  {
    hide Fits, PopTypes, PushResult, Emit;
    var base := pre[..|pre| - |ts|];
    assert pre == base + ts;
    PopTypesFits(st, base, ts);
    var st1 := PopTypes(st, ts).value;
    PushResultFits(c, st1, base, rs);
    if PushResult(c, st1, rs).Ok? {
      FitsFrames(PushResult(c, st1, rs).value, post);
      EmitFits(c, PushResult(c, st1, rs).value, ws, post);
    }
  }

  lemma FitsFrames(st: State, ts: seq<ValType>)
    requires Fits(st, ts)
    ensures st.frames != [] && Open(st)
  {
  }

  /** And back: what the operands were before. */
  lemma InlineBack(c: Context, st: State, ts: seq<ValType>, rs: ResultType, ws: seq<Word>, post: seq<ValType>)
    returns (pre: seq<ValType>)
    requires Open(st) && PopTypes(st, ts).Ok? && PushResult(c, PopTypes(st, ts).value, rs).Ok?
    requires var st2 := PushResult(c, PopTypes(st, ts).value, rs).value;
             Emit(c, st2, ws).Ok? && Fits(Emit(c, st2, ws).value, post)
    ensures Fits(st, pre) && Takes(pre, ts, ResultTypes(rs), post)
  {
    hide Fits, Emit;
    PopTypesOpen(st, ts);
    var st1 := PopTypes(st, ts).value;
    var st2 := PushResult(c, st1, rs).value;
    PushFrames(c, st1, rs);
    EmitFits(c, st2, ws, post);
    hide PopTypes, PushResult, Open;
    PushResultBack(c, st1, post, rs);
    var base := post[..|post| - ResultCount(rs)];
    PopTypesBack(st, base, ts);
    pre := base + ts;
    assert pre[|pre| - |ts|..] == ts && pre[..|pre| - |ts|] == base;
  }

  lemma {:induction false} PopTypesOpen(st: State, ts: seq<ValType>)
    requires Open(st) && PopTypes(st, ts).Ok?
    ensures Open(PopTypes(st, ts).value) && PopTypes(st, ts).value == st.(values := PopTypes(st, ts).value.values)
    decreases |ts|
  {
    if ts != [] {
      PopOpen(st, Known(ts[|ts| - 1]));
      PopTypesOpen(PopType(st, ts[|ts| - 1]).value, ts[..|ts| - 1]);
    }
  }

  lemma PushFrames(c: Context, st: State, r: ResultType)
    requires PushResult(c, st, r).Ok?
    ensures PushResult(c, st, r).value.frames == st.frames && PushResult(c, st, r).value.table == st.table
  {
    hide Height;
  }

  /** The instructions that pop known types, push a result and emit their words. */
  predicate Inline(op: Op) {
    op.Const? || op.Num? || op.LocalGet? || op.LocalSet? || op.LocalTee? || op.Call?
  }

  /** The compiler finds the local or function that is named. */
  predicate Named(c: Context, op: Op) {
    match op
    case LocalGet(x) => GetLocal(c, x).Ok?
    case LocalSet(x) => GetLocal(c, x).Ok?
    case LocalTee(x) => GetLocal(c, x).Ok?
    case Call(x) => x < |c.index|
    case _ => true
  }

  function TakenBy(c: Context, op: Op): seq<ValType>
    requires Inline(op) && Named(c, op)
  {
    match op
    case Num(o) => NumParams(o)
    case LocalSet(x) => [GetLocal(c, x).value.ty]
    case LocalTee(x) => [GetLocal(c, x).value.ty]
    case Call(x) => c.index[x].sig.params
    case _ => []
  }

  function GivenBy(c: Context, op: Op): ResultType
    requires Inline(op) && Named(c, op)
  {
    match op
    case Const(v) => Some(v.Type())
    case Num(o) => Some(NumResult(o))
    case LocalGet(x) => Some(GetLocal(c, x).value.ty)
    case LocalTee(x) => Some(GetLocal(c, x).value.ty)
    case Call(x) => c.index[x].sig.result
    case _ => None
  }

  function EmittedBy(c: Context, op: Op): seq<Word>
    requires Inline(op) && Named(c, op)
  {
    match op
    case Const(v) => ConstWords(v)
    case Num(o) => [Imm8(NumOpcode(o), 0)]
    case LocalGet(x) => Encode(Instr.LocalGet(GetLocal(c, x).value.ty, GetLocal(c, x).value.offset))
    case LocalSet(x) => Encode(Instr.LocalSet(GetLocal(c, x).value.ty, GetLocal(c, x).value.offset))
    case LocalTee(x) => Encode(Instr.LocalTee(GetLocal(c, x).value.ty, GetLocal(c, x).value.offset))
    case Call(x) => Encode(CallInstr(c.index[x].ref))
  }

  lemma InlineShape(c: Context, st: State, op: Op)
    requires Inline(op) && Named(c, op)
    ensures CompileOp(c, st, op) ==
            (var st1 :- PopTypes(st, TakenBy(c, op));
             var st2 :- PushResult(c, st1, GivenBy(c, op));
             Emit(c, st2, EmittedBy(c, op)))
  {
    hide PushOperand, PopType, Emit, Encode, ConstWords, Imm8, GetLocal, NumParams;
    if op.LocalSet? || op.LocalTee? {
      ResultIsTypes(st, Some(GetLocal(c, op.x).value.ty));
    }
  }

  /** The rule of an inline instruction, in the same terms. */
  lemma InlineRule(c: Context, labels: seq<ResultType>, op: Op, pre: seq<ValType>, post: seq<ValType>)
    requires Inline(op) && Named(c, op) && WordLen(c.sig.params) <= 0xFF
    ensures OpValid(c, labels, op, pre, post) <==> Takes(pre, TakenBy(c, op), ResultTypes(GivenBy(c, op)), post)
  {
    hide GetLocal, NumParams;
    if op.LocalGet? || op.LocalSet? || op.LocalTee? { GetLocalExact(c, op.x); }
    assert pre[|pre|..] == [] && pre[..|pre|] == pre;
  }

  /** A local or function that exists is found, unless a limit is met. */
  lemma NamedUnless(c: Context, st: State, labels: seq<ResultType>, op: Op, pre: seq<ValType>, post: seq<ValType>)
    requires Inline(op) && OpValid(c, labels, op, pre, post) && !Named(c, op)
    ensures CompileOp(c, st, op).Err? && Limit(CompileOp(c, st, op).error)
  {
    LocalErrors(c, if op.LocalGet? || op.LocalSet? || op.LocalTee? then op.x else 0);
    hide GetLocal;
  }

  lemma LocalErrors(c: Context, x: nat)
    ensures GetLocal(c, x).Err? ==> Limit(GetLocal(c, x).error)
  {
    if x <= 0xFFFF && x >= |c.sig.params| { SearchErrors(c.groups, x, |c.sig.params|, 0); }
  }

  lemma {:induction false} SearchErrors(groups: seq<LocalGroup>, x: Word, index: Word, offset: nat)
    requires index <= x
    ensures FindLocal(groups, x, index, offset).Err? ==> Limit(FindLocal(groups, x, index, offset).error)
    decreases |groups|
  {
    if groups != [] {
      var end: Word := (index + groups[0].count) % 0x1_0000;
      if end <= x { SearchErrors(groups[1..], x, end, offset + Width(groups[0].ty) * groups[0].count); }
    }
  }

  lemma InlineAccepts(
    c: Context, st: State, op: Op, labels: seq<ResultType>, pre: seq<ValType>, post: seq<ValType>, lo: nat)
    requires Ready(c, st, labels, lo) && Inline(op) && Fits(st, pre) && OpValid(c, labels, op, pre, post)
    ensures var r := CompileOp(c, st, op); if r.Err? then Limit(r.error) else Fits(r.value, post)
  {
    hide Fits, PopTypes, PushResult, Emit, CompileOp, OpValid, TakenBy, GivenBy, EmittedBy, StackOk, ChainsOk;
    hide LabelsOk, Limit;
    if Named(c, op) {
      InlineShape(c, st, op);
      InlineRule(c, labels, op, pre, post);
      InlineFits(c, st, pre, TakenBy(c, op), GivenBy(c, op), EmittedBy(c, op), post);
    } else {
      NamedUnless(c, st, labels, op, pre, post);
    }
  }

  lemma InlineExplains(c: Context, st: State, op: Op, labels: seq<ResultType>, post: seq<ValType>, lo: nat)
    returns (pre: seq<ValType>)
    requires Ready(c, st, labels, lo) && Inline(op)
    requires CompileOp(c, st, op).Ok? && Fits(CompileOp(c, st, op).value, post)
    ensures Fits(st, pre) && OpValid(c, labels, op, pre, post)
  {
    NamedIf(c, st, op);
    hide Fits, PopTypes, PushResult, Emit, CompileOp, OpValid, TakenBy, GivenBy, EmittedBy, ChainsOk, LabelsOk;
    InlineShape(c, st, op);
    pre := InlineBack(c, st, TakenBy(c, op), GivenBy(c, op), EmittedBy(c, op), post);
    InlineRule(c, labels, op, pre, post);
  }

  lemma NamedIf(c: Context, st: State, op: Op)
    requires Inline(op) && CompileOp(c, st, op).Ok?
    ensures Named(c, op)
  {
    hide GetLocal, PushOperand, PopType, PopTypes, Emit;
  }

  // ----- drop and select -----

  lemma DropAccepts(c: Context, st: State, pre: seq<ValType>)
    requires Fits(st, pre) && pre != []
    ensures var r := CompileDrop(c, st); if r.Err? then Limit(r.error) else Fits(r.value, pre[..|pre| - 1])
  {
    PopAnyFits(st, pre);
    var (st1, o) := PopAny(st).value;
    FitsFrames(st1, pre[..|pre| - 1]);
    EmitFits(c, st1, [Imm8(DROP, TypeTag(if o.Unknown? then ValType.I32 else o.ty))], pre[..|pre| - 1]);
    hide Fits, PopAny, Emit, Imm8, TypeTag, Limit;
  }

  lemma DropExplains(c: Context, st: State, post: seq<ValType>) returns (pre: seq<ValType>)
    requires Open(st) && CompileDrop(c, st).Ok? && Fits(CompileDrop(c, st).value, post)
    ensures Fits(st, pre) && pre != [] && post == pre[..|pre| - 1]
  {
    var (st1, o) := PopAny(st).value;
    var t := if o.Unknown? then ValType.I32 else o.ty;
    EmitFits(c, st1, [Imm8(DROP, TypeTag(t))], post);
    PopAnyBack(st, post, t);
    pre := post + [t];
  }

  lemma SelectAccepts(c: Context, st: State, pre: seq<ValType>, base: seq<ValType>, t: ValType)
    requires Fits(st, pre) && pre == base + [t, t, ValType.I32]
    ensures var r := CompileSelect(c, st); if r.Err? then Limit(r.error) else Fits(r.value, base + [t])
  {
    hide Fits, PopAny, PopExpect, PushOperand, Emit, Imm8, TypeTag, Limit;
    PopExpectFits(st, pre, Known(ValType.I32));
    var st1 := PopType(st, ValType.I32).value;
    assert pre[..|pre| - 1] == base + [t, t];
    PopAnyFits(st1, base + [t, t]);
    var (st2, t1) := PopAny(st1).value;
    assert (base + [t, t])[..|base| + 1] == base + [t];
    PopExpectFits(st2, base + [t], t1);
    var (st3, t2) := PopExpect(st2, t1).value;
    assert (base + [t])[..|base|] == base;
    PushFits(c, st3, base, t2, t);
    if PushOperand(c, st3, t2).Ok? {
      var st4 := PushOperand(c, st3, t2).value;
      FitsFrames(st4, base + [t]);
      EmitFits(c, st4, [Imm8(SELECT, TypeTag(if t2.Unknown? then ValType.I32 else t2.ty))], base + [t]);
    }
  }

  lemma SelectExplains(c: Context, st: State, post: seq<ValType>) returns (base: seq<ValType>, t: ValType)
    requires Open(st) && CompileSelect(c, st).Ok? && Fits(CompileSelect(c, st).value, post)
    ensures post == base + [t] && Fits(st, base + [t, t, ValType.I32])
  {
    hide Fits, PopAny, PopExpect, PushOperand, Emit, Imm8, TypeTag, Open;
    var st1 := PopType(st, ValType.I32).value;
    PopOpen(st, Known(ValType.I32));
    var (st2, t1) := PopAny(st1).value;
    PopAnyOpen(st1);
    var (st3, t2) := PopExpect(st2, t1).value;
    PopOpen(st2, t1);
    var st4 := PushOperand(c, st3, t2).value;
    PushOpen(c, st3, t2);
    EmitFits(c, st4, [Imm8(SELECT, TypeTag(if t2.Unknown? then ValType.I32 else t2.ty))], post);
    PushBack(c, st3, post, t2);
    base, t := post[..|post| - 1], post[|post| - 1];
    PopExpectBack(st2, base, t1, t);
    PopAnyBack(st1, base + [t], t);
    PopKnown(st, ValType.I32);
    PopExpectBack(st, base + [t] + [t], Known(ValType.I32), ValType.I32);
    assert base + [t] + [t] + [ValType.I32] == base + [t, t, ValType.I32];
  }

  lemma PopKnown(st: State, t: ValType)
    requires PopExpect(st, Known(t)).Ok?
    ensures PopExpect(st, Known(t)).value.1 == Known(t)
  {
    hide PopAny;
  }

  lemma PopAnyOpen(st: State)
    requires Open(st) && PopAny(st).Ok?
    ensures Open(PopAny(st).value.0)
  {
  }

  lemma PushOpen(c: Context, st: State, o: Operand)
    requires Open(st) && PushOperand(c, st, o).Ok?
    ensures Open(PushOperand(c, st, o).value) && PushOperand(c, st, o).value.frames != []
  {
    hide Height;
  }

  // ----- branches -----

  /** Types for the operands of a frame, whatever the unknown ones may be. */
  function Guess(st: State): (ts: seq<ValType>)
    requires Open(st)
    ensures Fits(st, ts)
  {
    var h := Innermost(st).height;
    seq(|st.values| - h,
        i requires 0 <= i < |st.values| - h => if st.values[h + i].Known? then st.values[h + i].ty else ValType.I32)
  }

  /** Popping the operands of a label whose type is known. */
  lemma ResultFits(st: State, pre: seq<ValType>, r: ResultType)
    requires Fits(st, pre) && Diverges(pre, ResultTypes(r))
    ensures PopResult(st, r).Ok? && Fits(PopResult(st, r).value, pre[..|pre| - ResultCount(r)])
  {
    hide Fits, PopTypes, PopResult;
    ResultIsTypes(st, r);
    var base := pre[..|pre| - ResultCount(r)];
    assert pre == base + ResultTypes(r);
    PopTypesFits(st, base, ResultTypes(r));
  }

  lemma ResultBack(st: State, base: seq<ValType>, r: ResultType)
    requires Open(st) && PopResult(st, r).Ok? && Fits(PopResult(st, r).value, base)
    ensures Fits(st, base + ResultTypes(r))
  {
    hide Fits, PopTypes, PopResult, Open;
    ResultIsTypes(st, r);
    PopTypesBack(st, base, ResultTypes(r));
  }

  lemma ResultOpen(st: State, r: ResultType)
    requires Open(st) && PopResult(st, r).Ok?
    ensures Open(PopResult(st, r).value) && PopResult(st, r).value == st.(values := PopResult(st, r).value.values)
  {
    hide Open, PopTypes, PopResult;
    ResultIsTypes(st, r);
    PopTypesOpen(st, ResultTypes(r));
  }

  lemma FitsOpen(st: State)
    requires StackOk(st)
    ensures Open(st)
  {
    hide Height;
  }

  lemma EmitReady(c: Context, st: State, ws: seq<Word>, labels: seq<ResultType>)
    requires StackOk(st) && LabelsOk(c, st, labels) && Emit(c, st, ws).Ok?
    ensures StackOk(Emit(c, st, ws).value) && LabelsOk(c, Emit(c, st, ws).value, labels)
  {
    EmitOk(c, st, ws);
    LabelsKept(c, st, Emit(c, st, ws).value, labels);
  }

  lemma BrAccepts(c: Context, st: State, l: nat, labels: seq<ResultType>, pre: seq<ValType>, post: seq<ValType>)
    requires StackOk(st) && LabelsOk(c, st, labels) && Fits(st, pre)
    requires l < |labels| && Diverges(pre, ResultTypes(labels[|labels| - 1 - l]))
    ensures var r := CompileBr(c, st, l); if r.Err? then Limit(r.error) else Fits(r.value, post)
  {
    hide Fits, Emit, WriteLabelTarget, PopResult, StackOk, StackStep, LabelsOk, Limit, MarkUnreachable, Imm8;
    FitsFrames(st, pre);
    var e := Emit(c, st, [Imm8(BR, 0)]);
    EmitFits(c, st, [Imm8(BR, 0)], pre);
    if e.Ok? {
      EmitReady(c, st, [Imm8(BR, 0)], labels);
      LabelFits(c, e.value, l, labels, pre);
      if WriteLabelTarget(c, e.value, l).Ok? {
        var (st2, r) := WriteLabelTarget(c, e.value, l).value;
        ResultFits(st2, pre, r);
        FitsFrames(PopResult(st2, r).value, pre[..|pre| - ResultCount(r)]);
        MarkFits(PopResult(st2, r).value, post);
      }
    }
  }

  lemma BrExplains(c: Context, st: State, l: nat, labels: seq<ResultType>) returns (pre: seq<ValType>)
    requires StackOk(st) && LabelsOk(c, st, labels) && CompileBr(c, st, l).Ok?
    ensures Fits(st, pre) && l < |labels| && Diverges(pre, ResultTypes(labels[|labels| - 1 - l]))
  {
    hide Fits, Emit, WriteLabelTarget, PopResult, StackOk, StackStep, LabelsOk, Limit, MarkUnreachable, Imm8, Open;
    FitsOpen(st);
    OpenFrames(st);
    var st1 := Emit(c, st, [Imm8(BR, 0)]).value;
    EmitReady(c, st, [Imm8(BR, 0)], labels);
    var (st2, r) := WriteLabelTarget(c, st1, l).value;
    LabelFits(c, st1, l, labels, []);
    FitsOpen(st2);
    ResultOpen(st2, r);
    var base := Guess(PopResult(st2, r).value);
    ResultBack(st2, base, r);
    pre := base + ResultTypes(r);
    LabelFits(c, st1, l, labels, pre);
    EmitFits(c, st, [Imm8(BR, 0)], pre);
  }

  lemma OpenFrames(st: State)
    requires Open(st)
    ensures st.frames != []
  {
  }

  lemma BrIfAccepts(c: Context, st: State, l: nat, labels: seq<ResultType>, pre: seq<ValType>, base: seq<ValType>)
    requires StackOk(st) && LabelsOk(c, st, labels) && Fits(st, pre) && l < |labels|
    requires pre == base + ResultTypes(labels[|labels| - 1 - l]) + [ValType.I32]
    ensures var r := CompileBrIf(c, st, l);
            if r.Err? then Limit(r.error) else Fits(r.value, base + ResultTypes(labels[|labels| - 1 - l]))
  {
    hide Fits, Emit, WriteLabelTarget, PopResult, PushResult, PopExpect, StackOk, StackStep, LabelsOk, Limit, Imm8;
    var ts := ResultTypes(labels[|labels| - 1 - l]);
    PopExpectFits(st, pre, Known(ValType.I32));
    assert pre[..|pre| - 1] == base + ts;
    var st1 := PopType(st, ValType.I32).value;
    PoppedReady(c, st, ValType.I32, labels);
    FitsFrames(st1, base + ts);
    var e := Emit(c, st1, [Imm8(BR_IF, 0)]);
    EmitFits(c, st1, [Imm8(BR_IF, 0)], base + ts);
    if e.Ok? {
      EmitReady(c, st1, [Imm8(BR_IF, 0)], labels);
      LabelFits(c, e.value, l, labels, base + ts);
      if WriteLabelTarget(c, e.value, l).Ok? {
        var (st3, r) := WriteLabelTarget(c, e.value, l).value;
        ResultFits(st3, base + ts, r);
        assert (base + ts)[..|base + ts| - ResultCount(r)] == base;
        PushResultFits(c, PopResult(st3, r).value, base, r);
      }
    }
  }

  lemma PoppedReady(c: Context, st: State, t: ValType, labels: seq<ResultType>)
    requires StackOk(st) && LabelsOk(c, st, labels) && PopType(st, t).Ok?
    ensures StackOk(PopType(st, t).value) && LabelsOk(c, PopType(st, t).value, labels)
    ensures PopType(st, t).value == st.(values := PopType(st, t).value.values)
  {
    hide Height;
    PopExpectPops(st, Known(t));
    PoppedOk(st, PopType(st, t).value);
    LabelsKept(c, st, PopType(st, t).value, labels);
  }

  lemma BrIfExplains(
    c: Context, st: State, l: nat, labels: seq<ResultType>, post: seq<ValType>) returns (base: seq<ValType>)
    requires StackOk(st) && LabelsOk(c, st, labels)
    requires CompileBrIf(c, st, l).Ok? && Fits(CompileBrIf(c, st, l).value, post)
    ensures l < |labels| && post == base + ResultTypes(labels[|labels| - 1 - l])
    ensures Fits(st, base + ResultTypes(labels[|labels| - 1 - l]) + [ValType.I32])
  {
    hide Fits, Emit, WriteLabelTarget, PopResult, PushResult, PopExpect, StackOk, StackStep, LabelsOk, Limit;
    hide Imm8, Open;
    FitsOpen(st);
    PoppedReady(c, st, ValType.I32, labels);
    var st1 := PopType(st, ValType.I32).value;
    FitsOpen(st1);
    OpenFrames(st1);
    var st2 := Emit(c, st1, [Imm8(BR_IF, 0)]).value;
    EmitReady(c, st1, [Imm8(BR_IF, 0)], labels);
    var (st3, r) := WriteLabelTarget(c, st2, l).value;
    LabelFits(c, st2, l, labels, []);
    FitsOpen(st3);
    ResultOpen(st3, r);
    PushResultBack(c, PopResult(st3, r).value, post, r);
    base := post[..|post| - ResultCount(r)];
    ResultBack(st3, base, r);
    LabelFits(c, st2, l, labels, base + ResultTypes(r));
    EmitFits(c, st1, [Imm8(BR_IF, 0)], base + ResultTypes(r));
    PopKnown(st, ValType.I32);
    PopExpectBack(st, base + ResultTypes(r), Known(ValType.I32), ValType.I32);
  }

  lemma ReturnAccepts(c: Context, st: State, pre: seq<ValType>, post: seq<ValType>)
    requires Fits(st, pre) && Diverges(pre, ResultTypes(c.sig.result))
    ensures var r := CompileReturn(c, st); if r.Err? then Limit(r.error) else Fits(r.value, post)
  {
    hide Fits, Emit, PopResult, Limit, MarkUnreachable, Imm8;
    var r := c.sig.result;
    ResultFits(st, pre, r);
    var st1 := PopResult(st, r).value;
    var base := pre[..|pre| - ResultCount(r)];
    FitsFrames(st1, base);
    EmitFits(c, st1, [Imm8(RETURN, ResultWords(r))], base);
    if Emit(c, st1, [Imm8(RETURN, ResultWords(r))]).Ok? {
      FitsFrames(Emit(c, st1, [Imm8(RETURN, ResultWords(r))]).value, base);
      MarkFits(Emit(c, st1, [Imm8(RETURN, ResultWords(r))]).value, post);
    }
  }

  lemma ReturnExplains(c: Context, st: State) returns (pre: seq<ValType>)
    requires Open(st) && CompileReturn(c, st).Ok?
    ensures Fits(st, pre) && Diverges(pre, ResultTypes(c.sig.result))
  {
    hide Fits, Emit, PopResult, MarkUnreachable, Open;
    ResultOpen(st, c.sig.result);
    var base := Guess(PopResult(st, c.sig.result).value);
    ResultBack(st, base, c.sig.result);
    pre := base + ResultTypes(c.sig.result);
  }

  // ----- branch tables -----

  /** The cases of a table: refused for a limit, unless their types differ. */
  lemma {:induction false} CasesAccept(
    c: Context, st: State, ls: seq<nat>, labels: seq<ResultType>, r: ResultType, ts: seq<ValType>)
    requires StackOk(st) && LabelsOk(c, st, labels) && (st.table.None? || st.table == Some(r))
    requires forall k :: 0 <= k < |ls| ==> LabelHas(labels, ls[k], r)
    ensures TableBranches(c, st, ls).Err? ==> Limit(TableBranches(c, st, ls).error)
    ensures TableBranches(c, st, ls).Ok? ==>
              var st' := TableBranches(c, st, ls).value;
              && StackOk(st') && LabelsOk(c, st', labels) && (st'.table.None? || st'.table == Some(r))
              && (Fits(st', ts) <==> Fits(st, ts))
    decreases |ls|
  {
    hide Fits, WriteLabelTarget, StackOk, StackStep, LabelsOk, Limit;
    if ls != [] {
      LabelFits(c, st, ls[0], labels, ts);
      assert LabelHas(labels, ls[0], r);
      if WriteLabelTarget(c, st, ls[0]).Ok? {
        var (st1, t) := WriteLabelTarget(c, st, ls[0]).value;
        var st2 := CheckTable(st1, t).value;
        CheckedSame(c, st1, t, labels, ts);
        CasesAccept(c, st2, ls[1..], labels, r, ts);
      }
    }
  }

  lemma CheckedSame(c: Context, st: State, t: ResultType, labels: seq<ResultType>, ts: seq<ValType>)
    requires StackOk(st) && LabelsOk(c, st, labels)
    ensures CheckTable(st, t).Ok? ==>
              var st' := CheckTable(st, t).value;
              StackOk(st') && LabelsOk(c, st', labels) && (Fits(st', ts) <==> Fits(st, ts)) && st'.table == Some(t)
    ensures CheckTable(st, t).Ok? <==> st.table.None? || st.table == Some(t)
  {
    hide Height;
    if CheckTable(st, t).Ok? {
      FitsSame(st, CheckTable(st, t).value, ts);
      LabelsKept(c, st, CheckTable(st, t).value, labels);
    }
  }

  /** And back: all cases have the type the table was left with. */
  lemma {:induction false} CasesExplain(c: Context, st: State, ls: seq<nat>, labels: seq<ResultType>, ts: seq<ValType>)
    requires StackOk(st) && LabelsOk(c, st, labels) && TableBranches(c, st, ls).Ok?
    ensures var st' := TableBranches(c, st, ls).value;
            && StackOk(st') && LabelsOk(c, st', labels) && (Fits(st', ts) <==> Fits(st, ts))
            && (st.table.Some? ==> st'.table == st.table) && (ls != [] ==> st'.table.Some?)
            && (ls == [] ==> st'.table == st.table)
            && forall k :: 0 <= k < |ls| ==> LabelHas(labels, ls[k], st'.table.value)
    decreases |ls|
  {
    hide Fits, WriteLabelTarget, StackOk, StackStep, LabelsOk;
    if ls != [] {
      LabelFits(c, st, ls[0], labels, ts);
      var (st1, t) := WriteLabelTarget(c, st, ls[0]).value;
      CheckedSame(c, st1, t, labels, ts);
      CasesExplain(c, CheckTable(st1, t).value, ls[1..], labels, ts);
      var st' := TableBranches(c, st, ls).value;
      forall k | 0 <= k < |ls| ensures LabelHas(labels, ls[k], st'.table.value) {
        if k > 0 { assert LabelHas(labels, ls[1..][k - 1], st'.table.value); }
      }
    }
  }

  lemma TableAccepts(
    c: Context, st: State, ls: seq<nat>, d: nat, labels: seq<ResultType>, pre: seq<ValType>, post: seq<ValType>)
    requires StackOk(st) && LabelsOk(c, st, labels) && Fits(st, pre) && st.table.None?
    requires OpValid(c, labels, Op.BrTable(ls, d), pre, post)
    ensures var r := CompileBrTable(c, st, ls, d); if r.Err? then Limit(r.error) else Fits(r.value, post)
  {
    hide Fits, Emit, WriteLabelTarget, PopResult, PopExpect, StackOk, StackStep, LabelsOk, MarkUnreachable;
    hide Imm8Or16, TableBranches;
    var r := labels[|labels| - 1 - d];
    var base := pre[..|pre| - 1];
    assert pre[|pre| - 1] == ValType.I32 && Diverges(base, ResultTypes(r));
    PopExpectFits(st, pre, Known(ValType.I32));
    PoppedReady(c, st, ValType.I32, labels);
    var st1 := PopType(st, ValType.I32).value;
    if |ls| <= 0xFFFF {
      var ws := Imm8Or16(BR_TABLE, |ls|);
      FitsFrames(st1, base);
      EmitFits(c, st1, ws, base);
      if Emit(c, st1, ws).Ok? {
        EmitReady(c, st1, ws, labels);
        CasesAccept(c, Emit(c, st1, ws).value, ls, labels, r, base);
        if TableBranches(c, Emit(c, st1, ws).value, ls).Ok? {
          DefaultAccepts(c, TableBranches(c, Emit(c, st1, ws).value, ls).value, d, labels, r, base, post);
        }
      }
    }
  }

  lemma DefaultAccepts(
    c: Context, st3: State, d: nat, labels: seq<ResultType>, r: ResultType, base: seq<ValType>, post: seq<ValType>)
    requires StackOk(st3) && LabelsOk(c, st3, labels) && Fits(st3, base) && (st3.table.None? || st3.table == Some(r))
    requires LabelHas(labels, d, r) && Diverges(base, ResultTypes(r))
    ensures WriteLabelTarget(c, st3, d).Err? ==> Limit(WriteLabelTarget(c, st3, d).error)
    ensures WriteLabelTarget(c, st3, d).Ok? ==>
              var (st4, t) := WriteLabelTarget(c, st3, d).value;
              && CheckAndClearTable(st4, t).Ok?
              && PopResult(CheckAndClearTable(st4, t).value, t).Ok?
              && Fits(MarkUnreachable(PopResult(CheckAndClearTable(st4, t).value, t).value), post)
  {
    hide Fits, WriteLabelTarget, PopResult, StackOk, StackStep, LabelsOk, MarkUnreachable, Limit;
    LabelFits(c, st3, d, labels, base);
    if WriteLabelTarget(c, st3, d).Ok? {
      var (st4, t) := WriteLabelTarget(c, st3, d).value;
      FitsFrames(st4, base);
      var st5 := CheckAndClearTable(st4, t).value;
      FitsSame(st4, st5, base);
      ResultFits(st5, base, t);
      FitsFrames(PopResult(st5, t).value, base[..|base| - ResultCount(t)]);
      MarkFits(PopResult(st5, t).value, post);
    }
  }

  lemma TableExplains(c: Context, st: State, ls: seq<nat>, d: nat, labels: seq<ResultType>, post: seq<ValType>)
    returns (pre: seq<ValType>)
    requires StackOk(st) && LabelsOk(c, st, labels) && st.table.None? && CompileBrTable(c, st, ls, d).Ok?
    ensures Fits(st, pre) && OpValid(c, labels, Op.BrTable(ls, d), pre, post)
  {
    hide Fits, Emit, WriteLabelTarget, PopResult, PopExpect, StackOk, StackStep, LabelsOk, MarkUnreachable;
    hide Imm8Or16, TableBranches, Open, Diverges, LabelHas, CheckAndClearTable;
    FitsOpen(st);
    PoppedReady(c, st, ValType.I32, labels);
    var st1 := PopType(st, ValType.I32).value;
    FitsOpen(st1);
    OpenFrames(st1);
    var ws := Imm8Or16(BR_TABLE, |ls|);
    var st2 := Emit(c, st1, ws).value;
    EmitReady(c, st1, ws, labels);
    EmitFits(c, st1, ws, []);
    CasesExplain(c, st2, ls, labels, []);
    var st3 := TableBranches(c, st2, ls).value;
    var base := DefaultExplains(c, st3, d, labels);
    CasesExplain(c, st2, ls, labels, base);
    EmitFits(c, st1, ws, base);
    PopKnown(st, ValType.I32);
    PopExpectBack(st, base, Known(ValType.I32), ValType.I32);
    pre := base + [ValType.I32];
    DivergesMore(base, ResultTypes(labels[|labels| - 1 - d]));
  }

  /** With an index on top. */
  lemma DivergesMore(base: seq<ValType>, ts: seq<ValType>)
    requires Diverges(base, ts)
    ensures Diverges(base + [ValType.I32], ts + [ValType.I32])
  {
    var pre := base + [ValType.I32];
    assert pre[|pre| - |ts| - 1..] == ts + [ValType.I32];
  }

  lemma DefaultExplains(c: Context, st3: State, d: nat, labels: seq<ResultType>) returns (base: seq<ValType>)
    requires StackOk(st3) && LabelsOk(c, st3, labels) && WriteLabelTarget(c, st3, d).Ok?
    requires var (st4, t) := WriteLabelTarget(c, st3, d).value;
             CheckAndClearTable(st4, t).Ok? && PopResult(CheckAndClearTable(st4, t).value, t).Ok?
    ensures d < |labels| && (st3.table.Some? ==> st3.table == Some(labels[|labels| - 1 - d]))
    ensures Fits(st3, base) && Diverges(base, ResultTypes(labels[|labels| - 1 - d]))
  {
    hide Fits, WriteLabelTarget, PopResult, StackOk, StackStep, LabelsOk, Open;
    LabelFits(c, st3, d, labels, []);
    var (st4, t) := WriteLabelTarget(c, st3, d).value;
    var st5 := CheckAndClearTable(st4, t).value;
    FitsOpen(st4);
    ClearedOpen(st4, t);
    ResultOpen(st5, t);
    var under := Guess(PopResult(st5, t).value);
    ResultBack(st5, under, t);
    base := under + ResultTypes(t);
    OpenFrames(st4);
    FitsSame(st4, st5, base);
    LabelFits(c, st3, d, labels, base);
  }

  lemma ClearedOpen(st: State, t: ResultType)
    requires Open(st) && CheckAndClearTable(st, t).Ok?
    ensures Open(CheckAndClearTable(st, t).value)
  {
  }

  // ----- one instruction -----

  /** A valid instruction is refused for a limit only; accepted, it leaves operands of the types the rule
      says. */
  lemma OpAccepts(
    c: Context, st: State, op: Op, labels: seq<ResultType>, pre: seq<ValType>, post: seq<ValType>, lo: nat)
    requires Ready(c, st, labels, lo) && Fits(st, pre) && OpValid(c, labels, op, pre, post)
    ensures var r := CompileOp(c, st, op); if r.Err? then Limit(r.error) else Fits(r.value, post)
  {
    hide Fits, StackOk, ChainsOk, LabelsOk, Limit, CompileBr, CompileBrIf, CompileBrTable, CompileReturn;
    hide CompileDrop, CompileSelect;
    hide NumParams, MarkUnreachable, Takes;
    if Inline(op) {
      hide OpValid, CompileOp;
      InlineAccepts(c, st, op, labels, pre, post, lo);
    } else if op.Drop? {
      DropAccepts(c, st, pre);
    } else if op.Select? {
      SelectRule(pre, post);
      SelectAccepts(c, st, pre, pre[..|pre| - 3], pre[|pre| - 3]);
    } else if op.Br? {
      BrAccepts(c, st, op.l, labels, pre, post);
    } else if op.BrIf? {
      BrIfRule(pre, ResultTypes(labels[|labels| - 1 - op.l]), post);
      BrIfAccepts(c, st, op.l, labels, pre, pre[..|pre| - |ResultTypes(labels[|labels| - 1 - op.l])| - 1]);
    } else if op.BrTable? {
      TableAccepts(c, st, op.ls, op.default, labels, pre, post);
    } else if op.Return? {
      ReturnAccepts(c, st, pre, post);
    } else {
      StopAccepts(c, st, op, pre, post);
    }
  }

  lemma SelectRule(pre: seq<ValType>, post: seq<ValType>)
    requires |pre| >= 3 && Takes(pre, [pre[|pre| - 3], pre[|pre| - 3], ValType.I32], [pre[|pre| - 3]], post)
    ensures var (base, t) := (pre[..|pre| - 3], pre[|pre| - 3]); pre == base + [t, t, ValType.I32] && post == base + [t]
  {
  }

  lemma SelectBack(base: seq<ValType>, t: ValType)
    ensures var pre := base + [t, t, ValType.I32];
            pre[|pre| - 3] == t && Takes(pre, [t, t, ValType.I32], [t], base + [t])
  {
    var pre := base + [t, t, ValType.I32];
    assert pre[|pre| - 3..] == [t, t, ValType.I32] && pre[..|pre| - 3] == base;
  }

  lemma BrIfRule(pre: seq<ValType>, ts: seq<ValType>, post: seq<ValType>)
    requires Takes(pre, ts + [ValType.I32], ts, post)
    ensures |ts| + 1 <= |pre|
    ensures var base := pre[..|pre| - |ts| - 1]; pre == base + ts + [ValType.I32] && post == base + ts
  {
    var base := pre[..|pre| - |ts| - 1];
    assert pre == base + (ts + [ValType.I32]);
  }

  lemma BrIfBack(base: seq<ValType>, ts: seq<ValType>)
    ensures Takes(base + ts + [ValType.I32], ts + [ValType.I32], ts, base + ts)
  {
    var pre := base + ts + [ValType.I32];
    assert pre == base + (ts + [ValType.I32]);
    assert pre[|pre| - |ts| - 1..] == ts + [ValType.I32] && pre[..|pre| - |ts| - 1] == base;
  }

  /** `nop` and `unreachable`. */
  lemma StopAccepts(c: Context, st: State, op: Op, pre: seq<ValType>, post: seq<ValType>)
    requires Fits(st, pre) && (op.Nop? || op.Unreachable?) && (op.Nop? ==> post == pre)
    ensures var r := CompileOp(c, st, op); if r.Err? then Limit(r.error) else Fits(r.value, post)
  {
    hide Fits, Emit, Limit, MarkUnreachable, Imm8;
    FitsFrames(st, pre);
    EmitFits(c, st, [Imm8(UNREACHABLE, 0)], pre);
    if Emit(c, st, [Imm8(UNREACHABLE, 0)]).Ok? {
      FitsFrames(Emit(c, st, [Imm8(UNREACHABLE, 0)]).value, pre);
      MarkFits(Emit(c, st, [Imm8(UNREACHABLE, 0)]).value, post);
    }
  }

  /** An accepted instruction is valid for some types that fit the operands before it, whatever types
      behind it are wanted. */
  lemma OpExplains(c: Context, st: State, op: Op, labels: seq<ResultType>, post: seq<ValType>, lo: nat)
    returns (pre: seq<ValType>)
    requires Ready(c, st, labels, lo) && CompileOp(c, st, op).Ok? && Fits(CompileOp(c, st, op).value, post)
    ensures Fits(st, pre) && OpValid(c, labels, op, pre, post)
  {
    hide Fits, StackOk, ChainsOk, LabelsOk, CompileBr, CompileBrIf, CompileBrTable, CompileReturn;
    hide CompileDrop, CompileSelect;
    hide NumParams, MarkUnreachable, Open, Takes;
    FitsOpen(st);
    if Inline(op) {
      hide OpValid, CompileOp;
      pre := InlineExplains(c, st, op, labels, post, lo);
    } else if op.Drop? {
      pre := DropExplains(c, st, post);
    } else if op.Select? {
      var base, t := SelectExplains(c, st, post);
      pre := base + [t, t, ValType.I32];
      SelectBack(base, t);
    } else if op.Br? {
      pre := BrExplains(c, st, op.l, labels);
    } else if op.BrIf? {
      var base := BrIfExplains(c, st, op.l, labels, post);
      var ts := ResultTypes(labels[|labels| - 1 - op.l]);
      pre := base + ts + [ValType.I32];
      BrIfBack(base, ts);
    } else if op.BrTable? {
      pre := TableExplains(c, st, op.ls, op.default, labels, post);
    } else if op.Return? {
      pre := ReturnExplains(c, st);
    } else if op.Nop? {
      pre := post;
    } else {
      pre := Guess(st);
    }
  }

  /** What the compiler knows is known again behind an accepted instruction. */
  lemma OpReady(c: Context, st: State, op: Op, labels: seq<ResultType>, lo: nat)
    requires Ready(c, st, labels, lo) && CompileOp(c, st, op).Ok?
    ensures Ready(c, CompileOp(c, st, op).value, labels, lo) && StackStep(st, CompileOp(c, st, op).value)
  {
    OpTable(c, st, op);
    hide StackOk, ChainsOk, LabelsOk, CompileOp, StackStep, Extends;
    OpExtends(c, st, op, lo);
    ExtendsElim(st, CompileOp(c, st, op).value, lo);
    OpOk(c, st, op);
    LabelsKept(c, st, CompileOp(c, st, op).value, labels);
  }

  /** No table type is left pending. */
  lemma OpTable(c: Context, st: State, op: Op)
    requires StackOk(st) && st.table.None? && CompileOp(c, st, op).Ok?
    ensures CompileOp(c, st, op).value.table.None?
  {
    hide StackOk, Height, WriteLabelTarget, PopTypes, PopExpect, PopAny, TableBranches, GetLocal, Imm8Or16;
    hide Imm8, Encode, PopResult;
    hide PushResult, PushOperand, Fits, Open;
    FitsOpen(st);
    if Inline(op) {
      NamedIf(c, st, op);
      hide CompileOp;
      InlineShape(c, st, op);
      hide TakenBy, GivenBy, EmittedBy;
      PopTypesOpen(st, TakenBy(c, op));
      PushFrames(c, PopTypes(st, TakenBy(c, op)).value, GivenBy(c, op));
    } else {
      OtherTable(c, st, op);
    }
  }

  lemma OtherTable(c: Context, st: State, op: Op)
    requires Open(st) && st.table.None? && CompileOp(c, st, op).Ok? && !Inline(op)
    ensures CompileOp(c, st, op).value.table.None?
  {
    hide Imm8Or16, Imm8, TypeTag, TableBranches, PopTypes, WriteLabelTarget, PopAny, PopExpect, PopResult;
    hide PushResult, PushOperand;
    hide MarkUnreachable, Open;
    if op.Drop? {
      PopAnyTable(st);
    } else if op.Select? {
      SelectTable(c, st);
    } else if op.Br? {
      var st1 := Emit(c, st, [Imm8(BR, 0)]).value;
      LabelTable(c, st1, op.l);
      var (st2, r) := WriteLabelTarget(c, st1, op.l).value;
      ResultTable(st2, r);
      MarkTable(PopResult(st2, r).value);
    } else if op.BrIf? {
      PopTable(st, Known(ValType.I32));
      var st2 := Emit(c, PopType(st, ValType.I32).value, [Imm8(BR_IF, 0)]).value;
      LabelTable(c, st2, op.l);
      var (st3, r) := WriteLabelTarget(c, st2, op.l).value;
      ResultTable(st3, r);
      PushFrames(c, PopResult(st3, r).value, r);
    } else if op.BrTable? {
      DefaultTable(c, st, op);
    } else if op.Return? {
      ResultTable(st, c.sig.result);
      MarkTable(Emit(c, PopResult(st, c.sig.result).value, [Imm8(RETURN, ResultWords(c.sig.result))]).value);
    } else if op.Unreachable? {
      MarkTable(Emit(c, st, [Imm8(UNREACHABLE, 0)]).value);
    }
  }

  lemma DefaultTable(c: Context, st: State, op: Op)
    requires op.BrTable? && CompileOp(c, st, op).Ok?
    ensures CompileOp(c, st, op).value.table.None?
  {
    hide Imm8Or16, TableBranches, WriteLabelTarget, PopExpect, PopResult, Emit, MarkUnreachable;
    var st3 := TableBranches(c, Emit(c, PopType(st, ValType.I32).value, Imm8Or16(BR_TABLE, |op.ls|)).value,
        op.ls).value;
    var (st4, r) := WriteLabelTarget(c, st3, op.default).value;
    var st5 := CheckAndClearTable(st4, r).value;
    ResultTable(st5, r);
    MarkTable(PopResult(st5, r).value);
  }

  lemma SelectTable(c: Context, st: State)
    requires CompileSelect(c, st).Ok?
    ensures CompileSelect(c, st).value.table == st.table
  {
    hide PopAny, PopExpect, PushOperand, Imm8, TypeTag;
    PopTable(st, Known(ValType.I32));
    var st1 := PopType(st, ValType.I32).value;
    PopAnyTable(st1);
    var (st2, t1) := PopAny(st1).value;
    PopTable(st2, t1);
    var (st3, t2) := PopExpect(st2, t1).value;
    PushTable(c, st3, t2);
  }

  lemma PopAnyTable(st: State)
    requires PopAny(st).Ok?
    ensures PopAny(st).value.0.table == st.table
  {
  }

  lemma PopTable(st: State, want: Operand)
    requires PopExpect(st, want).Ok?
    ensures PopExpect(st, want).value.0.table == st.table
  {
  }

  lemma PushTable(c: Context, st: State, o: Operand)
    requires PushOperand(c, st, o).Ok?
    ensures PushOperand(c, st, o).value.table == st.table
  {
    hide Height;
  }

  lemma ResultTable(st: State, r: ResultType)
    requires PopResult(st, r).Ok?
    ensures PopResult(st, r).value.table == st.table
  {
    hide PopExpect;
    if r.Some? { PopTable(st, Known(r.value)); }
  }

  lemma MarkTable(st: State)
    ensures MarkUnreachable(st).table == st.table
  {
  }

  // ----- opening and closing frames -----

  /** Entering a block or loop: the fresh frame fits no operands, under one more label. */
  lemma EnterReady(c: Context, st: State, rt: ResultType, labels: seq<ResultType>, loop: bool, lo: nat)
    requires Ready(c, st, labels, lo)
    ensures var r := if loop then EnterLoop(c, st, rt) else EnterBlock(c, st, rt);
            && (r.Err? ==> Limit(r.error))
            && (r.Ok? ==>
                  && Ready(c, r.value, labels + [if loop then None else rt], lo) && Fits(r.value, [])
                  && Opened(st, r.value, lo) && Entered(st, r.value, rt) && r.value.values == st.values)
  {
    hide ChainsOk, StackOk, Opened;
    EnterOpens(c, st, rt, lo);
    EnterOk(c, st, rt);
    var r := if loop then EnterLoop(c, st, rt) else EnterBlock(c, st, rt);
    if r.Ok? {
      EnteredOk(st, r.value, rt);
      OpenedOk(st, r.value, lo);
      EnteredLabels(c, st, r.value, rt, labels, if loop then None else rt);
    }
  }

  lemma EnteredLabels(c: Context, st: State, st1: State, rt: ResultType, labels: seq<ResultType>, label_: ResultType)
    requires st.frames != [] && LabelsOk(c, st, labels) && Entered(st, st1, rt)
    requires label_ == if Innermost(st1).kind.Loop? then None else rt
    ensures LabelsOk(c, st1, labels + [label_])
  {
    forall i | 0 <= i < |labels| + 1 ensures LabelType(c, st1, i) == (labels + [label_])[i] {
      if i < |labels| { assert LabelType(c, st, i) == labels[i]; }
    }
  }

  /** Leaving a frame whose operands are its results is refused for a limit only. */
  lemma ExitAccepts(c: Context, st2: State, lo: nat)
    requires OptionsOk(c.options) && ChainsOk(st2, lo) && StackOk(st2) && |st2.frames| >= 2
    requires Fits(st2, ResultTypes(Innermost(st2).out)) && (Innermost(st2).kind.If? ==> Innermost(st2).out.None?)
    ensures ExitBlock(c, st2).Err? ==> Limit(ExitBlock(c, st2).error)
  {
    hide ChainsOk, StackOk, Fits, Limit, Backpatch, PushResult, DropFrame, Height;
    DropAccepted(st2);
    var st3 := DropFrame(st2).value;
    ExitBackpatch(c, st2, lo);
    if PopControl(c, st2).Ok? {
      PushLimit(c, PopControl(c, st2).value.0, Innermost(st2).out);
    }
  }

  lemma DropAccepted(st2: State)
    requires StackOk(st2) && Fits(st2, ResultTypes(Innermost(st2).out))
    ensures DropFrame(st2).Ok? && DropFrame(st2).value.code == st2.code
  {
    hide PopResult;
    var out := Innermost(st2).out;
    ResultFits(st2, ResultTypes(out), out);
    ResultFrames(st2, out);
    hide StackOk;
  }

  lemma ResultFrames(st: State, r: ResultType)
    requires PopResult(st, r).Ok?
    ensures PopResult(st, r).value.frames == st.frames && PopResult(st, r).value.code == st.code
  {
  }

  lemma ExitBackpatch(c: Context, st2: State, lo: nat)
    requires OptionsOk(c.options) && ChainsOk(st2, lo) && |st2.frames| >= 2
    requires DropFrame(st2).Ok? && DropFrame(st2).value.code == st2.code
    requires Innermost(st2).kind.If? ==> Innermost(st2).out.None?
    ensures PopControl(c, st2).Err? ==> Limit(PopControl(c, st2).error)
  {
    hide DropFrame, Backpatch, Limit, Chain, ChainOk;
    var f := Innermost(st2);
    assert FrameOk(st2, |st2.frames| - 1, lo);
    if !f.kind.Loop? && f.target != SENTINEL {
      BackpatchErrors(c.options, st2.code, f.target, |st2.code|, 0, lo);
    }
  }

  /** On a well-formed chain a backpatch is refused for a limit only. */
  lemma {:induction false} BackpatchErrors(o: Options, code: seq<Word>, a: int, pc: int, n: nat, lo: nat)
    requires ChainOk(code, a, lo)
    ensures Backpatch(o, code, a, pc, n).Err? ==> Limit(Backpatch(o, code, a, pc, n).error)
    decreases a
  {
    hide Slot, WithJump, SetSlot, FitsJump;
    if JumpOffset(a, pc).Ok? && Jump(Slot(code, a)) != 0 {
      BackpatchStep(o, code, a, pc, n, lo);
      var code1 := SetSlot(code, a, WithJump(Slot(code, a), JumpOffset(a, pc).value));
      BackpatchErrors(o, code1, a + Jump(Slot(code, a)), pc, n + 1, lo);
    }
  }

  lemma PushLimit(c: Context, st: State, r: ResultType)
    ensures PushResult(c, st, r).Err? ==> Limit(PushResult(c, st, r).error)
  {
    hide Height;
  }

  /** The state around a frame that was entered at `st1`: without the condition of an if. */
  function Around(st: State, st1: State): State { st.(values := st1.values) }

  /** Behind `end` the operands are those around the frame and its results, so they fit exactly the types
      around it and the result types. */
  lemma ExitFits(c: Context, st: State, st1: State, st2: State, rt: ResultType, ts: seq<ValType>)
    requires StackOk(st) && Entered(st, st1, rt) && StackOk(st2) && StackStep(st1, st2) && ExitBlock(c, st2).Ok?
    ensures var (st0, st3) := (Around(st, st1), ExitBlock(c, st2).value);
            && (Fits(st0, ts) ==> Fits(st3, ts + ResultTypes(rt)))
            && (Fits(st3, ts) ==>
                  && ResultCount(rt) <= |ts| && ts == ts[..|ts| - ResultCount(rt)] + ResultTypes(rt)
                  && Fits(st0, ts[..|ts| - ResultCount(rt)]))
  {
    ExitValues(c, st, st1, st2, rt);
    var st3 := ExitBlock(c, st2).value;
    hide ExitBlock, StackOk, Height, Fits;
    var n := |st.frames|;
    assert st1.frames[n - 1] == st.frames[n - 1];
    hide StackStep, Entered;
    ResultsFit(Around(st, st1), st3, rt, ts);
    ResultsUnder(Around(st, st1), st3, rt, ts);
  }

  /** `st3` is `st` with some results on top. */
  predicate WithResults(st: State, st3: State, rt: ResultType) {
    && st.frames != [] && st3.frames != [] && st3.values == st.values + OperandsOf(rt)
    && Innermost(st3).height == Innermost(st).height <= |st.values|
    && Innermost(st3).unreachable == Innermost(st).unreachable
  }

  lemma ResultsFit(st: State, st3: State, rt: ResultType, ts: seq<ValType>)
    requires WithResults(st, st3, rt)
    ensures Fits(st, ts) ==> Fits(st3, ts + ResultTypes(rt))
  {
    assert forall i :: 0 <= i < |st.values| ==> st3.values[i] == st.values[i];
  }

  lemma ResultsUnder(st: State, st3: State, rt: ResultType, ts: seq<ValType>)
    requires WithResults(st, st3, rt)
    ensures Fits(st3, ts) ==>
              && ResultCount(rt) <= |ts| && ts == ts[..|ts| - ResultCount(rt)] + ResultTypes(rt)
              && Fits(st, ts[..|ts| - ResultCount(rt)])
  {
    assert ts[..|ts|] == ts && ts + [] == ts && st.values + [] == st.values;
    if Fits(st3, ts) && rt.Some? {
      assert Matches(st3.values[|st.values|], ts[|ts| - 1]);
      assert forall i :: 0 <= i < |st.values| ==> st3.values[i] == st.values[i];
    }
  }

  lemma ExitReady(c: Context, st: State, st1: State, st2: State, rt: ResultType, labels: seq<ResultType>, lo: nat)
    requires OptionsOk(c.options) && Sound(c, st, labels) && Entered(st, st1, rt) && StackStep(st1, st2)
    requires StackOk(st2) && st2.table.None? && ExitBlock(c, st2).Ok? && ChainsOk(ExitBlock(c, st2).value, lo)
    ensures Ready(c, ExitBlock(c, st2).value, labels, lo)
  {
    ExitTable(c, st2);
    hide StackOk, ChainsOk, LabelsOk, ExitBlock, Entered;
    ExitOk(c, st, st1, st2, rt);
    LabelsKept(c, st, ExitBlock(c, st2).value, labels);
  }

  lemma ExitTable(c: Context, st2: State)
    requires StackOk(st2) && ExitBlock(c, st2).Ok?
    ensures ExitBlock(c, st2).value.table == st2.table
  {
    hide Height, Backpatch, PushResult, DropFrame, StackOk;
    DropFrameValues(st2);
    PushFrames(c, PopControl(c, st2).value.0, Innermost(st2).out);
  }

  // ----- ifs -----

  lemma EnterIfAccepts(c: Context, st: State, rt: ResultType, labels: seq<ResultType>, pre: seq<ValType>, lo: nat)
    requires Ready(c, st, labels, lo) && Fits(st, pre) && pre != [] && pre[|pre| - 1] == ValType.I32
    ensures EnterIf(c, st, rt).Err? ==> Limit(EnterIf(c, st, rt).error)
    ensures EnterIf(c, st, rt).Ok? ==> Fits(Around(st, EnterIf(c, st, rt).value), pre[..|pre| - 1])
  {
    hide ChainsOk, StackOk, LabelsOk, Fits, PopExpect, Imm8, Words32, Pack;
    PopExpectFits(st, pre, Known(ValType.I32));
    if EnterIf(c, st, rt).Ok? {
      IfAround(c, st, rt);
    }
  }

  lemma IfAround(c: Context, st: State, rt: ResultType)
    requires StackOk(st) && EnterIf(c, st, rt).Ok?
    ensures PopType(st, ValType.I32).Ok? && Around(st, EnterIf(c, st, rt).value) == PopType(st, ValType.I32).value
  {
    hide Imm8, Words32, Pack, Height;
    PopExpectPops(st, Known(ValType.I32));
  }

  lemma EnterIfExplains(c: Context, st: State, rt: ResultType, ts: seq<ValType>)
    requires StackOk(st) && EnterIf(c, st, rt).Ok? && Fits(Around(st, EnterIf(c, st, rt).value), ts)
    ensures Fits(st, ts + [ValType.I32])
  {
    hide Fits, PopExpect, Open, EnterIf, StackOk;
    FitsOpen(st);
    IfAround(c, st, rt);
    PopKnown(st, ValType.I32);
    PopExpectBack(st, ts, Known(ValType.I32), ValType.I32);
  }

  lemma EnterIfReady(c: Context, st: State, rt: ResultType, labels: seq<ResultType>, lo: nat)
    requires Ready(c, st, labels, lo) && EnterIf(c, st, rt).Ok?
    ensures var st1 := EnterIf(c, st, rt).value;
            && Ready(c, st1, labels + [rt], lo) && Fits(st1, []) && Innermost(st1).kind.If?
            && Opened(st, st1, lo) && Entered(st, st1, rt)
  {
    hide ChainsOk, StackOk, Opened, LabelsOk, Slot, SlotIn;
    EnterIfOpens(c, st, rt, lo);
    EnterIfOk(c, st, rt);
    var st1 := EnterIf(c, st, rt).value;
    EnteredOk(st, st1, rt);
    OpenedOk(st, st1, lo);
    IfKind(c, st, rt);
    hide EnterIf;
    EnteredLabels(c, st, st1, rt, labels, rt);
  }

  lemma IfKind(c: Context, st: State, rt: ResultType)
    requires EnterIf(c, st, rt).Ok?
    ensures var st1 := EnterIf(c, st, rt).value; st1.frames != [] && Innermost(st1).kind.If? && st1.table == st.table
  {
    hide Imm8, Words32, Pack;
    PopTable(st, Known(ValType.I32));
  }

  // ----- else -----

  /** Between the arms of an if whose results are on top, only a limit can be met. */
  lemma ElseAccepts(c: Context, st2: State, labels: seq<ResultType>, lo: nat)
    requires Ready(c, st2, labels, lo) && |st2.frames| >= 2 && Innermost(st2).kind.If?
    requires Fits(st2, ResultTypes(Innermost(st2).out))
    ensures Else(c, st2).Err? ==> Limit(Else(c, st2).error)
  {
    hide ChainsOk, StackOk, LabelsOk, Fits, Limit, WriteLabelTarget, DropFrame, SplitTail, Emit, Imm8;
    hide PushControl, StackStep, Else;
    ElseParts(c, st2);
    var ts := ResultTypes(Innermost(st2).out);
    var e := Emit(c, st2, [Imm8(BR, 0)]);
    EmitFits(c, st2, [Imm8(BR, 0)], ts);
    if e.Ok? {
      EmitReady(c, st2, [Imm8(BR, 0)], labels);
      LabelFits(c, e.value, 0, labels, ts);
      LabelCount(c, e.value, labels);
      if WriteLabelTarget(c, e.value, 0).Ok? {
        var st3 := WriteLabelTarget(c, e.value, 0).value.0;
        ElseBranchExtends(c, st2, lo);
        ExtendsElim(st2, st3, lo);
        SameInner(st2, st3);
        DropAccepted(st3);
        SplitLimit(c, st3, lo);
        ElseEnds(c, st3);
      }
    }
  }

  lemma LabelCount(c: Context, st: State, labels: seq<ResultType>)
    requires LabelsOk(c, st, labels) && StackOk(st)
    ensures 0 < |labels|
  {
    hide Height;
  }

  lemma SameInner(st: State, st': State)
    requires SameShape(st, st') && st.frames != []
    ensures Innermost(st').kind == Innermost(st).kind && Innermost(st').out == Innermost(st).out
  {
  }

  /** `else` after its branch is written. */
  function ElseRest(c: Context, st3: State): Result<State, Error>
  {
    if st3.frames == [] || Innermost(st3).kind != BlockKind.If then Err(InvalidElseBlock)
    else
      var f := Innermost(st3);
      var st4 :- DropFrame(st3);
      var (code, rest) :- SplitTail(c.options, st4.code, f.target, f.target, SENTINEL, |st4.code|, 0);
      PushControl(c, st4.(code := code), BlockKind.Block, f.out, f.out, rest)
  }

  lemma ElseParts(c: Context, st2: State)
    requires st2.frames != []
    ensures Else(c, st2) ==
            (var st1 :- Emit(c, st2, [Imm8(BR, 0)]);
             var (st3, _) :- WriteLabelTarget(c, st1, 0);
             ElseRest(c, st3))
  {
    hide Imm8, DropFrame, SplitTail, PushControl, WriteLabelTarget;
    var e := Emit(c, st2, [Imm8(BR, 0)]);
    if e.Ok? && WriteLabelTarget(c, e.value, 0).Ok? { LabelTable(c, e.value, 0); }
  }

  lemma ElseEnds(c: Context, st3: State)
    requires st3.frames != [] && Innermost(st3).kind.If? && DropFrame(st3).Ok? && DropFrame(st3).value.code == st3.code
    requires var (f, code) := (Innermost(st3), st3.code);
             var r := SplitTail(c.options, code, f.target, f.target, SENTINEL, |code|, 0); r.Err? ==> Limit(r.error)
    ensures ElseRest(c, st3).Err? ==> Limit(ElseRest(c, st3).error)
  {
    hide DropFrame, SplitTail;
  }

  lemma SplitLimit(c: Context, st3: State, lo: nat)
    requires ChainsOk(st3, lo) && |st3.frames| >= 2 && Innermost(st3).kind.If? && DropFrame(st3).Ok?
    requires DropFrame(st3).value.code == st3.code
    ensures var (f, code) := (Innermost(st3), st3.code);
            var r := SplitTail(c.options, code, f.target, f.target, SENTINEL, |code|, 0); r.Err? ==> Limit(r.error)
  {
    hide DropFrame, SplitTail, Limit, Chain, ChainOk;
    assert FrameOk(st3, |st3.frames| - 1, lo);
    SplitErrors(c.options, st3.code, Innermost(st3).target, Innermost(st3).target, SENTINEL, |st3.code|, 0, lo);
  }

  /** On a well-formed chain splitting off the tail is refused for a limit only. */
  lemma {:induction false} SplitErrors(
    o: Options, code: seq<Word>, head: int, a: int, prev: int, pc: int, n: nat, lo: nat)
    requires ChainOk(code, a, lo) && (prev == SENTINEL || SlotIn(code, prev))
    ensures SplitTail(o, code, head, a, prev, pc, n).Err? ==> Limit(SplitTail(o, code, head, a, prev, pc, n).error)
    decreases a
  {
    hide Slot, WithJump, FitsJump;
    if Jump(Slot(code, a)) != 0 {
      SplitErrors(o, code, head, a + Jump(Slot(code, a)), a, pc, n + 1, lo);
    }
  }

  /** The else part starts like a block with the same results, inside the frames the then part left. */
  lemma ElseReady(c: Context, st: State, st1: State, st2: State, rt: ResultType, labels: seq<ResultType>, lo: nat)
    requires Ready(c, st, labels, lo) && Entered(st, st1, rt) && StackStep(st1, st2) && Ready(c, st2, labels + [rt], lo)
    requires Else(c, st2).Ok?
    ensures |st.frames| <= |st2.frames|
    ensures var (base, st3) := (AfterThen(st, st2), Else(c, st2).value);
            && Ready(c, st3, labels + [rt], lo) && Fits(st3, []) && st3.values == st1.values
            && Innermost(st3).kind.Block?
            && Sound(c, base, labels) && Entered(base, st3, rt)
  {
    hide ChainsOk, StackOk, LabelsOk, Height;
    AfterThenOk(st, st1, st2, rt);
    ElseOk(c, st, st1, st2, rt);
    ElseValues(c, st, st1, st2, rt);
    ElseExtendsCode(c, st2, lo);
    var (base, st3) := (AfterThen(st, st2), Else(c, st2).value);
    ElseTable(c, st2);
    hide Else, SameUnder;
    LabelsKept(c, st, base, labels);
    BaseLabels(c, base, st3, rt, labels);
  }

  lemma BaseLabels(c: Context, base: State, st3: State, rt: ResultType, labels: seq<ResultType>)
    requires base.frames != [] && LabelsOk(c, base, labels) && Entered(base, st3, rt) && Innermost(st3).kind.Block?
    ensures LabelsOk(c, st3, labels + [rt])
  {
    EnteredLabels(c, base, st3, rt, labels, rt);
  }

  lemma ElseTable(c: Context, st2: State)
    requires StackOk(st2) && Else(c, st2).Ok?
    ensures Else(c, st2).value.table == st2.table
  {
    hide Height, SplitTail, Imm8, WriteLabelTarget, PopResult, StackOk;
    var st := Emit(c, st2, [Imm8(BR, 0)]).value;
    LabelTable(c, st, 0);
    var st3 := WriteLabelTarget(c, st, 0).value.0;
    ResultTable(st3, Innermost(st3).out);
  }

  // ----- sequences -----

  /** What the compiler knows is known again behind an accepted sequence. */
  lemma CodeReady(c: Context, st: State, code: Code, labels: seq<ResultType>, lo: nat)
    requires Ready(c, st, labels, lo) && Compile(c, st, code).Ok?
    ensures Ready(c, Compile(c, st, code).value, labels, lo) && StackStep(st, Compile(c, st, code).value)
  {
    hide StackOk, ChainsOk, LabelsOk, Compile, StackStep, Extends;
    CompileExtends(c, st, code, lo);
    ExtendsElim(st, Compile(c, st, code).value, lo);
    CompileOk(c, st, code);
    LabelsKept(c, st, Compile(c, st, code).value, labels);
    CodeTable(c, st, code);
  }

  lemma {:induction false} CodeTable(c: Context, st: State, code: Code)
    requires StackOk(st) && st.table.None? && Compile(c, st, code).Ok?
    ensures Compile(c, st, code).value.table.None?
    decreases code, 1
  {
    hide StackOk, EnterBlock, EnterLoop, EnterIf, ExitBlock, Else, CompileOp, Entered, StackStep;
    match code
    case Done =>
    case Plain(op, next) =>
      OpTable(c, st, op);
      OpOk(c, st, op);
      CodeTable(c, CompileOp(c, st, op).value, next);
    case Block(rt, body, next) =>
      EnterTable(c, st, rt);
      EnterOk(c, st, rt);
      BodyTable(c, st, EnterBlock(c, st, rt).value, rt, code, body, next);
    case Loop(rt, body, next) =>
      EnterTable(c, st, rt);
      EnterOk(c, st, rt);
      BodyTable(c, st, EnterLoop(c, st, rt).value, rt, code, body, next);
    case If(rt, thn, next) =>
      IfKind(c, st, rt);
      EnterIfOk(c, st, rt);
      BodyTable(c, st, EnterIf(c, st, rt).value, rt, code, thn, next);
    case IfElse(rt, thn, els, next) =>
      var st1 := EnterIf(c, st, rt).value;
      IfKind(c, st, rt);
      EnterIfOk(c, st, rt);
      EnteredOk(st, st1, rt);
      CompileOk(c, st1, thn);
      CodeTable(c, st1, thn);
      var st2 := Compile(c, st1, thn).value;
      ElseTable(c, st2);
      ElseOk(c, st, st1, st2, rt);
      AfterThenOk(st, st1, st2, rt);
      BodyTable(c, AfterThen(st, st2), Else(c, st2).value, rt, code, els, next);
  }

  lemma {:induction false} BodyTable(
    c: Context, st: State, st1: State, rt: ResultType, whole: Code, body: Code, next: Code)
    requires StackOk(st) && Entered(st, st1, rt) && st1.table.None? && body < whole && next < whole
    requires Compile(c, st1, body).Ok? && ExitBlock(c, Compile(c, st1, body).value).Ok?
    requires Compile(c, ExitBlock(c, Compile(c, st1, body).value).value, next).Ok?
    ensures Compile(c, ExitBlock(c, Compile(c, st1, body).value).value, next).value.table.None?
    decreases whole, 0
  {
    hide StackOk, Entered, StackStep, ExitBlock, Compile;
    EnteredOk(st, st1, rt);
    CodeTable(c, st1, body);
    CompileOk(c, st1, body);
    var st2 := Compile(c, st1, body).value;
    ExitTable(c, st2);
    ExitOk(c, st, st1, st2, rt);
    CodeTable(c, ExitBlock(c, st2).value, next);
  }

  lemma EnterTable(c: Context, st: State, rt: ResultType)
    ensures EnterBlock(c, st, rt).Ok? ==> EnterBlock(c, st, rt).value.table == st.table
    ensures EnterLoop(c, st, rt).Ok? ==> EnterLoop(c, st, rt).value.table == st.table
  {
  }

  /** A valid sequence is refused for a limit only; accepted, it leaves operands of the types it is valid
      for. */
  lemma {:induction false} CodeAccepts(
    c: Context, st: State, code: Code, labels: seq<ResultType>, pre: seq<ValType>, post: seq<ValType>, lo: nat)
    requires Ready(c, st, labels, lo) && Fits(st, pre) && CodeValid(c, labels, code, pre, post)
    ensures var r := Compile(c, st, code); if r.Err? then Limit(r.error) else Fits(r.value, post)
    decreases code, 2
  {
    hide Sound, ChainsOk, Fits, Limit, EnterBlock, EnterLoop, EnterIf, ExitBlock, Else, CompileOp, Entered;
    hide Opened, OpValid, Ready;
    match code
    case Done =>
    case Plain(op, next) =>
      var mid :| OpValid(c, labels, op, pre, mid) && CodeValid(c, labels, next, mid, post);
      OpAccepts(c, st, op, labels, pre, mid, lo);
      if CompileOp(c, st, op).Ok? {
        OpReady(c, st, op, labels, lo);
        CodeAccepts(c, CompileOp(c, st, op).value, next, labels, mid, post, lo);
      }
    case Block(rt, body, next) =>
      EnterReady(c, st, rt, labels, false, lo);
      if EnterBlock(c, st, rt).Ok? {
        AroundSame(c, st, rt);
        ReadyParts(c, st, labels, lo);
        BodyAccepts(c, st, EnterBlock(c, st, rt).value, rt, rt, code, body, next, labels, pre, post, lo);
      }
    case Loop(rt, body, next) =>
      EnterReady(c, st, rt, labels, true, lo);
      if EnterLoop(c, st, rt).Ok? {
        AroundSame(c, st, rt);
        ReadyParts(c, st, labels, lo);
        BodyAccepts(c, st, EnterLoop(c, st, rt).value, rt, None, code, body, next, labels, pre, post, lo);
      }
    case If(rt, thn, next) =>
      EnterIfAccepts(c, st, rt, labels, pre, lo);
      if EnterIf(c, st, rt).Ok? {
        EnterIfReady(c, st, rt, labels, lo);
        ReadyParts(c, st, labels, lo);
        assert pre[..|pre| - 1] + [] == pre[..|pre| - 1];
        BodyAccepts(c, st, EnterIf(c, st, rt).value, rt, rt, code, thn, next, labels, pre[..|pre| - 1], post, lo);
      }
    case IfElse(rt, thn, els, next) =>
      EnterIfAccepts(c, st, rt, labels, pre, lo);
      if EnterIf(c, st, rt).Ok? {
        EnterIfReady(c, st, rt, labels, lo);
        ArmsAccept(c, st, EnterIf(c, st, rt).value, code, labels, pre[..|pre| - 1], post, lo);
      }
  }

  lemma ReadyParts(c: Context, st: State, labels: seq<ResultType>, lo: nat)
    requires Ready(c, st, labels, lo)
    ensures OptionsOk(c.options) && Sound(c, st, labels) && ChainsOk(st, lo) && st.table.None? && StackOk(st)
  {
  }

  lemma AroundSame(c: Context, st: State, rt: ResultType)
    ensures EnterBlock(c, st, rt).Ok? ==>
              Around(st, EnterBlock(c, st, rt).value) == st && !Innermost(EnterBlock(c, st, rt).value).kind.If?
    ensures EnterLoop(c, st, rt).Ok? ==>
              Around(st, EnterLoop(c, st, rt).value) == st && !Innermost(EnterLoop(c, st, rt).value).kind.If?
  {
  }

  /** A body in its frame, the `end`, and what follows. */
  lemma {:induction false} BodyAccepts(
    c: Context, st: State, st1: State, rt: ResultType, label_: ResultType, whole: Code, body: Code, next: Code,
    labels: seq<ResultType>, ts: seq<ValType>, post: seq<ValType>, lo: nat)
    requires body < whole && next < whole && Sound(c, st, labels) && Entered(st, st1, rt)
    requires Ready(c, st1, labels + [label_], lo) && Fits(st1, []) && Fits(Around(st, st1), ts)
    requires CodeValid(c, labels + [label_], body, [], ResultTypes(rt))
    requires CodeValid(c, labels, next, ts + ResultTypes(rt), post)
    requires Innermost(st1).kind.If? ==> rt.None?
    ensures var r := (var st2 :- Compile(c, st1, body);
                      var st3 :- ExitBlock(c, st2);
                      Compile(c, st3, next));
            if r.Err? then Limit(r.error) else Fits(r.value, post)
    decreases whole, 0
  {
    hide Sound, ChainsOk, Fits, Limit, ExitBlock, Compile, Ready, StackStep, CodeValid, Closed;
    CodeAccepts(c, st1, body, labels + [label_], [], ResultTypes(rt), lo);
    if Compile(c, st1, body).Ok? {
      CodeReady(c, st1, body, labels + [label_], lo);
      var st2 := Compile(c, st1, body).value;
      ReadyParts(c, st2, labels + [label_], lo);
      InnerSame(st1, st2);
      ExitAccepts(c, st2, lo);
      if ExitBlock(c, st2).Ok? {
        ExitCloses(c, st2, lo);
        CloseSlots(st2, ExitBlock(c, st2).value, lo);
        hide Entered;
        SoundStack(c, st, labels);
        ExitReady(c, st, st1, st2, rt, labels, lo);
        ExitFits(c, st, st1, st2, rt, ts);
        CodeAccepts(c, ExitBlock(c, st2).value, next, labels, ts + ResultTypes(rt), post, lo);
      }
    }
  }

  lemma SoundStack(c: Context, st: State, labels: seq<ResultType>)
    requires Sound(c, st, labels)
    ensures StackOk(st) && LabelsOk(c, st, labels)
  {
  }

  lemma InnerSame(st1: State, st2: State)
    requires StackStep(st1, st2)
    ensures |st2.frames| == |st1.frames| && st2.frames != []
    ensures Innermost(st2).kind == Innermost(st1).kind && Innermost(st2).out == Innermost(st1).out
  {
  }

  /** The two arms of an if. */
  lemma {:induction false} ArmsAccept(
    c: Context, st: State, st1: State, code: Code, labels: seq<ResultType>, ts: seq<ValType>,
    post: seq<ValType>, lo: nat)
    requires code.IfElse? && Ready(c, st, labels, lo) && Entered(st, st1, code.rt)
    requires Ready(c, st1, labels + [code.rt], lo) && Fits(st1, [])
    requires Fits(Around(st, st1), ts) && Innermost(st1).kind.If?
    requires CodeValid(c, labels + [code.rt], code.thn, [], ResultTypes(code.rt))
    requires CodeValid(c, labels + [code.rt], code.els, [], ResultTypes(code.rt))
    requires CodeValid(c, labels, code.next, ts + ResultTypes(code.rt), post)
    ensures var r := (var st2 :- Compile(c, st1, code.thn);
                      var st3 :- Else(c, st2);
                      var st4 :- Compile(c, st3, code.els);
                      var st5 :- ExitBlock(c, st4);
                      Compile(c, st5, code.next));
            if r.Err? then Limit(r.error) else Fits(r.value, post)
    decreases code, 1
  {
    hide Sound, ChainsOk, Fits, Limit, ExitBlock, Compile, Ready, StackStep, CodeValid, Else;
    var rt := code.rt;
    CodeAccepts(c, st1, code.thn, labels + [rt], [], ResultTypes(rt), lo);
    if Compile(c, st1, code.thn).Ok? {
      CodeReady(c, st1, code.thn, labels + [rt], lo);
      var st2 := Compile(c, st1, code.thn).value;
      InnerSame(st1, st2);
      ElseAccepts(c, st2, labels + [rt], lo);
      if Else(c, st2).Ok? {
        ElseReady(c, st, st1, st2, rt, labels, lo);
        var (base, st3) := (AfterThen(st, st2), Else(c, st2).value);
        hide Entered;
        AroundElse(c, st, st1, st2, st3, ts, labels, rt, lo);
        BodyAccepts(c, base, st3, rt, rt, code, code.els, code.next, labels, ts, post, lo);
      }
    }
  }

  /** The else part has the same surroundings as the then part. */
  lemma AroundElse(
    c: Context, st: State, st1: State, st2: State, st3: State, ts: seq<ValType>, labels: seq<ResultType>,
    rt: ResultType, lo: nat)
    requires Ready(c, st, labels, lo) && Entered(st, st1, rt) && StackStep(st1, st2) && st3.values == st1.values
    ensures |st.frames| <= |st2.frames| && (Fits(Around(AfterThen(st, st2), st3), ts) <==> Fits(Around(st, st1), ts))
  {
    hide Fits, ChainsOk, StackOk, LabelsOk;
    var n := |st.frames|;
    assert st1.frames[n - 1] == st.frames[n - 1];
    FitsSame(Around(st, st1), Around(AfterThen(st, st2), st3), ts);
  }

  /** An accepted sequence is valid for some types that fit the operands before it, whatever types behind it
      are wanted. */
  lemma {:induction false} CodeExplains(
    c: Context, st: State, code: Code, labels: seq<ResultType>, post: seq<ValType>, lo: nat)
    returns (pre: seq<ValType>)
    requires Ready(c, st, labels, lo) && Compile(c, st, code).Ok? && Fits(Compile(c, st, code).value, post)
    ensures Fits(st, pre) && CodeValid(c, labels, code, pre, post)
    decreases code, 2
  {
    hide Sound, ChainsOk, Fits, EnterBlock, EnterLoop, EnterIf, ExitBlock, Else, CompileOp, Entered, Opened;
    hide OpValid, Ready;
    match code
    case Done => pre := post;
    case Plain(op, next) =>
      OpReady(c, st, op, labels, lo);
      var mid := CodeExplains(c, CompileOp(c, st, op).value, next, labels, post, lo);
      pre := OpExplains(c, st, op, labels, mid, lo);
    case Block(rt, body, next) =>
      EnterReady(c, st, rt, labels, false, lo);
      AroundSame(c, st, rt);
      ReadyParts(c, st, labels, lo);
      pre := BodyExplains(c, st, EnterBlock(c, st, rt).value, rt, rt, code, body, next, labels, post, lo);
    case Loop(rt, body, next) =>
      EnterReady(c, st, rt, labels, true, lo);
      AroundSame(c, st, rt);
      ReadyParts(c, st, labels, lo);
      pre := BodyExplains(c, st, EnterLoop(c, st, rt).value, rt, None, code, body, next, labels, post, lo);
    case If(rt, thn, next) =>
      EnterIfReady(c, st, rt, labels, lo);
      ReadyParts(c, st, labels, lo);
      var ts := BodyExplains(c, st, EnterIf(c, st, rt).value, rt, rt, code, thn, next, labels, post, lo);
      EnterIfExplains(c, st, rt, ts);
      pre := ts + [ValType.I32];
      assert ts + [] == ts && pre[..|pre| - 1] == ts;
    case IfElse(rt, thn, els, next) =>
      EnterIfReady(c, st, rt, labels, lo);
      ReadyParts(c, st, labels, lo);
      var ts := ArmsExplain(c, st, EnterIf(c, st, rt).value, code, labels, post, lo);
      EnterIfExplains(c, st, rt, ts);
      pre := ts + [ValType.I32];
      assert pre[..|pre| - 1] == ts;
  }

  lemma {:induction false} BodyExplains(
    c: Context, st: State, st1: State, rt: ResultType, label_: ResultType, whole: Code, body: Code, next: Code,
    labels: seq<ResultType>, post: seq<ValType>, lo: nat)
    returns (ts: seq<ValType>)
    requires body < whole && next < whole && Sound(c, st, labels) && Entered(st, st1, rt)
    requires Ready(c, st1, labels + [label_], lo) && Fits(st1, [])
    requires Compile(c, st1, body).Ok? && ExitBlock(c, Compile(c, st1, body).value).Ok?
    requires Compile(c, ExitBlock(c, Compile(c, st1, body).value).value, next).Ok?
    requires Fits(Compile(c, ExitBlock(c, Compile(c, st1, body).value).value, next).value, post)
    ensures Fits(Around(st, st1), ts)
    ensures CodeValid(c, labels + [label_], body, [], ResultTypes(rt))
    ensures CodeValid(c, labels, next, ts + ResultTypes(rt), post)
    ensures Innermost(st1).kind.If? ==> rt.None?
    decreases whole, 0
  {
    hide Sound, ChainsOk, Fits, ExitBlock, Compile, Ready, StackStep, CodeValid, Closed;
    CodeReady(c, st1, body, labels + [label_], lo);
    var st2 := Compile(c, st1, body).value;
    ReadyParts(c, st2, labels + [label_], lo);
    InnerSame(st1, st2);
    ExitCloses(c, st2, lo);
    var st3 := ExitBlock(c, st2).value;
    CloseSlots(st2, st3, lo);
    SoundStack(c, st, labels);
    EnteredOut(st, st1, rt);
    ExitExplains(c, st2);
    hide Entered, StackOk;
    ReadyParts(c, st1, labels + [label_], lo);
    ExitReady(c, st, st1, st2, rt, labels, lo);
    var p := CodeExplains(c, st3, next, labels, post, lo);
    ExitFits(c, st, st1, st2, rt, p);
    ts := p[..|p| - ResultCount(rt)];
    var q := CodeExplains(c, st1, body, labels + [label_], ResultTypes(rt), lo);
    FreshEmpty(st, st1, rt, q);
  }

  lemma EnteredOut(st: State, st1: State, rt: ResultType)
    requires Entered(st, st1, rt)
    ensures st1.frames != [] && Innermost(st1).out == rt && |st1.frames| >= 2
  {
  }

  /** A fresh frame fits no operands, and nothing else. */
  lemma FreshEmpty(st: State, st1: State, rt: ResultType, q: seq<ValType>)
    requires Entered(st, st1, rt) && Fits(st1, q)
    ensures q == []
  {
  }

  /** At an accepted `end` the operands fit the results. */
  lemma ExitExplains(c: Context, st2: State)
    requires StackOk(st2) && ExitBlock(c, st2).Ok?
    ensures Fits(st2, ResultTypes(Innermost(st2).out)) && (Innermost(st2).kind.If? ==> Innermost(st2).out.None?)
  {
    hide StackOk, Backpatch, PushResult, DropFrame, Height;
    DropExplained(st2);
  }

  lemma DropExplained(st2: State)
    requires StackOk(st2) && DropFrame(st2).Ok?
    ensures Fits(st2, ResultTypes(Innermost(st2).out))
  {
    FitsOpen(st2);
    hide StackOk, PopResult;
    var out := Innermost(st2).out;
    ResultOpen(st2, out);
    var st3 := PopResult(st2, out).value;
    assert Fits(st3, []);
    hide Fits;
    ResultBack(st2, [], out);
    assert [] + ResultTypes(out) == ResultTypes(out);
  }

  /** At an accepted `else` too. */
  lemma ElseExplains(c: Context, st2: State, labels: seq<ResultType>, lo: nat)
    requires Ready(c, st2, labels, lo) && Else(c, st2).Ok?
    ensures st2.frames != [] && Fits(st2, ResultTypes(Innermost(st2).out))
  {
    ReadyParts(c, st2, labels, lo);
    SoundStack(c, st2, labels);
    FitsOpen(st2);
    OpenFrames(st2);
    ElseParts(c, st2);
    hide StackOk, LabelsOk, Fits, WriteLabelTarget, Emit, Imm8, StackStep, Else, Sound, ChainsOk, DropFrame;
    hide Open, Extends, SplitTail;
    var st1 := Emit(c, st2, [Imm8(BR, 0)]).value;
    EmitReady(c, st2, [Imm8(BR, 0)], labels);
    var ts := ResultTypes(Innermost(st2).out);
    LabelFits(c, st1, 0, labels, ts);
    var st3 := WriteLabelTarget(c, st1, 0).value.0;
    ElseBranchExtends(c, st2, lo);
    ExtendsElim(st2, st3, lo);
    SameInner(st2, st3);
    DropExplained(st3);
    EmitFits(c, st2, [Imm8(BR, 0)], ts);
  }

  lemma {:induction false} ArmsExplain(
    c: Context, st: State, st1: State, code: Code, labels: seq<ResultType>, post: seq<ValType>, lo: nat)
    returns (ts: seq<ValType>)
    requires code.IfElse? && Ready(c, st, labels, lo) && Entered(st, st1, code.rt)
    requires Ready(c, st1, labels + [code.rt], lo) && Fits(st1, [])
    requires Compile(c, st1, code.thn).Ok? && Else(c, Compile(c, st1, code.thn).value).Ok?
    requires Compile(c, Else(c, Compile(c, st1, code.thn).value).value, code.els).Ok?
    requires var st4 := Compile(c, Else(c, Compile(c, st1, code.thn).value).value, code.els).value;
             && ExitBlock(c, st4).Ok? && Compile(c, ExitBlock(c, st4).value, code.next).Ok?
             && Fits(Compile(c, ExitBlock(c, st4).value, code.next).value, post)
    ensures Fits(Around(st, st1), ts)
    ensures CodeValid(c, labels + [code.rt], code.thn, [], ResultTypes(code.rt))
    ensures CodeValid(c, labels + [code.rt], code.els, [], ResultTypes(code.rt))
    ensures CodeValid(c, labels, code.next, ts + ResultTypes(code.rt), post)
    decreases code, 1
  {
    hide Sound, ChainsOk, Fits, ExitBlock, Compile, Ready, StackStep, CodeValid, Else, StackOk;
    var rt := code.rt;
    EnteredOut(st, st1, rt);
    CodeReady(c, st1, code.thn, labels + [rt], lo);
    var st2 := Compile(c, st1, code.thn).value;
    InnerSame(st1, st2);
    ElseExplains(c, st2, labels + [rt], lo);
    var q := CodeExplains(c, st1, code.thn, labels + [rt], ResultTypes(rt), lo);
    FreshEmpty(st, st1, rt, q);
    ElseReady(c, st, st1, st2, rt, labels, lo);
    var (base, st3) := (AfterThen(st, st2), Else(c, st2).value);
    hide Entered;
    ts := BodyExplains(c, base, st3, rt, rt, code, code.els, code.next, labels, post, lo);
    AroundElse(c, st, st1, st2, st3, ts, labels, rt, lo);
  }

  // ----- function bodies -----

  lemma StartReady(c: Context, code: seq<Word>)
    requires OptionsOk(c.options) && WordLen(c.sig.params) <= 0xFF && |code| < 0x8000_0000
    ensures Ready(c, Start(c, code), [c.sig.result], |code|)
    ensures forall ts {:trigger Fits(Start(c, code), ts)} :: Fits(Start(c, code), ts) <==> ts == []
  {
    var st := Start(c, code);
    assert LabelType(c, st, 0) == c.sig.result;
  }

  /** `finish` accepts a body exactly when its results are on top, but for a limit. */
  lemma FinishFits(c: Context, st: State, labels: seq<ResultType>, lo: nat)
    requires Ready(c, st, labels, lo) && |st.frames| == 1 && Innermost(st).out == c.sig.result
    ensures Fits(st, ResultTypes(c.sig.result)) && Finish(c, st).Err? ==> Limit(Finish(c, st).error)
    ensures Finish(c, st).Ok? ==> Fits(st, ResultTypes(c.sig.result))
  {
    hide Fits, DropFrame, Backpatch, Height;
    assert FrameOk(st, 0, lo);
    if Fits(st, ResultTypes(c.sig.result)) { DropAccepted(st); }
    if Finish(c, st).Ok? { DropExplained(st); }
  }

  /** The compiler accepts only valid bodies, and refuses a valid body for a limit only; `Accepts` says for
      which. */
  lemma RefusedForLimit(c: Context, code: seq<Word>, body: Code)
    requires OptionsOk(c.options) && WordLen(c.sig.params) <= 0xFF && |code| < 0x8000_0000
    ensures CompileFunc(c, code, body).Ok? ==> FuncValid(c, body)
    ensures FuncValid(c, body) ==> CompileFunc(c, code, body).Ok? || Limit(CompileFunc(c, code, body).error)
  {
    var st0 := Start(c, code);
    var labels := [c.sig.result];
    var results := ResultTypes(c.sig.result);
    StartReady(c, code);
    hide Ready, Fits, Compile, Finish, CodeValid, Limit;
    if FuncValid(c, body) {
      CodeAccepts(c, st0, body, labels, [], results, |code|);
    }
    if Compile(c, st0, body).Ok? {
      BodyFinish(c, st0, body, labels, |code|);
      if Finish(c, Compile(c, st0, body).value).Ok? {
        var pre := CodeExplains(c, st0, body, labels, results, |code|);
      }
    }
    LimitsOfFrames();
  }

  lemma BodyFinish(c: Context, st0: State, body: Code, labels: seq<ResultType>, lo: nat)
    requires Ready(c, st0, labels, lo) && st0 == Start(c, st0.code) && Compile(c, st0, body).Ok?
    ensures var st := Compile(c, st0, body).value;
            && (Fits(st, ResultTypes(c.sig.result)) && Finish(c, st).Err? ==> Limit(Finish(c, st).error))
            && (Finish(c, st).Ok? ==> Fits(st, ResultTypes(c.sig.result)))
  {
    hide Ready, Fits, Compile, Finish, Limit;
    CodeReady(c, st0, body, labels, lo);
    InnerSame(st0, Compile(c, st0, body).value);
    FinishFits(c, Compile(c, st0, body).value, labels, lo);
  }

  lemma LimitsOfFrames()
    ensures Limit(TooManyLocals) && Limit(StackTooLarge)
  {
  }
}
