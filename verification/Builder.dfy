/** The text builder (src/text.rs, `TextBuilder`): the mutable compiler state over the paged code
    store. Every method does what the function of `Text` with its name says. */
module Builder {
  import opened Values
  import opened Label
  import opened Ir
  import opened Wasm
  import opened Text
  import opened Chains
  import opened Frames
  import opened Extension
  import opened Typing
  import opened Locals
  import opened CodeStore

  /** `r` and the state left behind are those of `want`; after an error the builder is abandoned. */
  ghost predicate Same(r: Result<(), Error>, want: Result<State, Error>, now: State) {
    match want
    case Ok(st) => r.Ok? && now == st
    case Err(e) => r == Err(e)
  }

  ghost predicate SameWith<T(!new)>(r: Result<T, Error>, want: Result<(State, T), Error>, now: State) {
    match want
    case Ok(v) => r == Ok(v.1) && now == v.0
    case Err(e) => r == Err(e)
  }

  /** Words written one after another are one piece of code; a failure anywhere is the same failure. */
  lemma EmitTwice(c: Context, st: State, a: seq<Word>, b: seq<Word>)
    ensures Emit(c, st, a + b) == (var st1 :- Emit(c, st, a); Emit(c, st1, b))
  {
    assert st.code + (a + b) == st.code + a + b;
  }

  class TextBuilder {
    const c: Context
    const code: CodeBuilder
    var frames: seq<Frame>
    var values: seq<Operand>
    var highwater: nat
    var table: Option<ResultType>

    /** The builder as a value. */
    ghost function View(): State
      requires code.Valid()
      reads this, code, code.Repr
    {
      State(code.Contents(), frames, values, highwater, table)
    }

    ghost predicate Ready()
      reads this, code, code.Repr
    {
      code.Valid() && code.options == c.options && OptionsOk(c.options) && WordLen(c.sig.params) <= 0xFF
    }

    /** Between two instructions of a body that starts at `lo`. */
    ghost predicate Valid(lo: nat)
      reads this, code, code.Repr
    {
      Ready() && ChainsOk(View(), lo) && StackOk(View())
    }

    /** `TextBuilder::new`: the implicit frame of the function is pushed. */
    constructor (c: Context, code: CodeBuilder)
      requires code.Valid() && code.options == c.options && OptionsOk(c.options)
      requires WordLen(c.sig.params) <= 0xFF && |code.Contents()| < 0x8000_0000
      ensures this.c == c && this.code == code && Ready() && View() == Start(c, code.Contents())
      ensures Valid(|code.Contents()|)
    {
      this.c := c;
      this.code := code;
      frames := [Frame(BlockKind.Block, c.sig.result, c.sig.result, 0, SENTINEL, false)];
      values := [];
      highwater := 0;
      table := None;
    }

    // ----- emitting -----

    /** `write_16` and the other single-word writers. */
    method PushWord(w: Word) returns (r: Result<(), Error>)
      requires Ready()
      modifies code, code.Repr
      ensures Ready() && fresh(code.Repr - old(code.Repr))
      ensures Same(r, Emit(c, old(View()), [w]), View())
    {
      var ok := code.Push(w);
      r := if ok then Ok(()) else Err(OutOfMemory);
    }

    method InstrImm8(op: U8, imm: U8) returns (r: Result<(), Error>)
      requires Ready()
      modifies code, code.Repr
      ensures Ready() && fresh(code.Repr - old(code.Repr))
      ensures Same(r, Emit(c, old(View()), [Imm8(op, imm)]), View())
    {
      r := PushWord(Imm8(op, imm));
    }

    /** `write_32`. */
    method Write32(d: U32) returns (r: Result<(), Error>)
      requires Ready()
      modifies code, code.Repr
      ensures Ready() && fresh(code.Repr - old(code.Repr))
      ensures Same(r, Emit(c, old(View()), Words32(d)), View())
    {
      EmitTwice(c, View(), [d % 0x1_0000], [d / 0x1_0000]);
      var _ :- PushWord(d % 0x1_0000);
      r := PushWord(d / 0x1_0000);
    }

    /** `write_64`. */
    method Write64(d: U64) returns (r: Result<(), Error>)
      requires Ready()
      modifies code, code.Repr
      ensures Ready() && fresh(code.Repr - old(code.Repr))
      ensures Same(r, Emit(c, old(View()), Words64(d)), View())
    {
      EmitTwice(c, View(), Words32(Low32(d)), Words32(High32(d)));
      var _ :- Write32(Low32(d));
      r := Write32(High32(d));
    }

    /** `instr_imm_8_or_16`. */
    method InstrImm8Or16(op: U8, idx: nat) returns (r: Result<(), Error>)
      requires Ready()
      modifies code, code.Repr
      ensures Ready() && fresh(code.Repr - old(code.Repr))
      ensures idx > 0xFFFF ==> r == Err(IdxTooLarge)
      ensures idx <= 0xFFFF ==> Same(r, Emit(c, old(View()), Imm8Or16(op, idx)), View())
    {
      if idx > 0xFFFF {
        r := Err(IdxTooLarge);
      } else if idx < 0xFF {
        r := InstrImm8(op, idx);
      } else {
        EmitTwice(c, View(), [Imm8(op, 0xFF)], [idx]);
        var _ :- InstrImm8(op, 0xFF);
        r := PushWord(idx);
      }
    }

    /** `instr_imm_8_or_32`. */
    method InstrImm8Or32(op: U8, i: U32) returns (r: Result<(), Error>)
      requires Ready()
      modifies code, code.Repr
      ensures Ready() && fresh(code.Repr - old(code.Repr))
      ensures Same(r, Emit(c, old(View()), Imm8Or32(op, i)), View())
    {
      if i < 0xFF {
        r := InstrImm8(op, i);
      } else {
        EmitTwice(c, View(), [Imm8(op, 0xFF)], Words32(i));
        var _ :- InstrImm8(op, 0xFF);
        r := Write32(i);
      }
    }

    /** `instr_imm_8_or_64`. */
    method InstrImm8Or64(op: U8, i: U64) returns (r: Result<(), Error>)
      requires Ready()
      modifies code, code.Repr
      ensures Ready() && fresh(code.Repr - old(code.Repr))
      ensures Same(r, Emit(c, old(View()), Imm8Or64(op, i)), View())
    {
      if i < 0xFF {
        r := InstrImm8(op, i);
      } else {
        EmitTwice(c, View(), [Imm8(op, 0xFF)], Words64(i));
        var _ :- InstrImm8(op, 0xFF);
        r := Write64(i);
      }
    }

    // ----- operand types -----

    /** `stack_height_for`: the words of the first `n` operands, up to one of unknown type. */
    method StackHeightFor(n: nat) returns (size: nat)
      requires n <= |values|
      ensures size == Height(values[..n])
    {
      size := 0;
      var i := 0;
      while i < n
        invariant i <= n && size + Height(values[..n][i..]) == Height(values[..n])
      {
        if values[i].Unknown? { return; }
        size := size + Width(values[i].ty);
        assert values[..n][i..][1..] == values[..n][i + 1..];
        i := i + 1;
      }
    }

    /** `stack_height`. */
    method StackHeight() returns (size: nat)
      ensures size == Height(values)
    {
      size := StackHeightFor(|values|);
      assert values[..|values|] == values;
    }

    method PushStack(o: Operand) returns (r: Result<(), Error>)
      requires Ready()
      modifies this
      ensures Ready() && Same(r, PushOperand(c, old(View()), o), View())
    {
      if |values| >= c.options.maxStack { return Err(OutOfMemory); }
      values := values + [o];
      var l := StackHeight();
      if l > highwater { highwater := l; }
      r := Ok(());
    }

    /** `pop_stack_t`. */
    method PopStackT() returns (r: Result<Operand, Error>)
      requires Ready()
      modifies this
      ensures Ready() && SameWith(r, PopAny(old(View())), View())
    {
      var (height, dead) :=
        if frames == [] then (0, false) else (frames[|frames| - 1].height, frames[|frames| - 1].unreachable);
      if |values| <= height && dead {
        r := Ok(Unknown);
      } else if |values| <= height {
        r := Err(StackUnderflow);
      } else {
        r := Ok(values[|values| - 1]);
        values := values[..|values| - 1];
      }
    }

    /** `pop_stack`. */
    method PopStack(want: Operand) returns (r: Result<Operand, Error>)
      requires Ready()
      modifies this
      ensures Ready() && SameWith(r, PopExpect(old(View()), want), View())
    {
      var actual :- PopStackT();
      if actual.Unknown? {
        r := Ok(want);
      } else if want.Unknown? {
        r := Ok(actual);
      } else if actual != want {
        r := Err(TypeMismatch);
      } else {
        r := Ok(actual);
      }
    }

    /** `pop_stack` with a known type. */
    method PopStackType(t: ValType) returns (r: Result<(), Error>)
      requires Ready()
      modifies this
      ensures Ready() && Same(r, PopType(old(View()), t), View())
    {
      var _ :- PopStack(Known(t));
      r := Ok(());
    }

    /** The operands of a call, last one first. */
    method PopStackTypes(ts: seq<ValType>) returns (r: Result<(), Error>)
      requires Ready()
      modifies this
      ensures Ready() && Same(r, PopTypes(old(View()), ts), View())
    {
      ghost var was := View();
      var i: nat := |ts|;
      assert ts[..i] == ts;
      while i > 0
        invariant i <= |ts| && Ready() && PopTypes(was, ts) == PopTypes(View(), ts[..i])
        invariant code.Contents() == old(code.Contents())
      {
        assert ts[..i][..i - 1] == ts[..i - 1];
        i := i - 1;
        var _ :- PopStackType(ts[i]);
      }
      assert ts[..0] == [];
      r := Ok(());
    }

    method PopResultType(t: ResultType) returns (r: Result<(), Error>)
      requires Ready()
      modifies this
      ensures Ready() && Same(r, PopResult(old(View()), t), View())
    {
      if t.None? { return Ok(()); }
      r := PopStackType(t.value);
    }

    method PushResultType(t: ResultType) returns (r: Result<(), Error>)
      requires Ready()
      modifies this
      ensures Ready() && Same(r, PushResult(c, old(View()), t), View())
    {
      if t.None? { return Ok(()); }
      r := PushStack(Known(t.value));
    }

    /** `mark_unreachable`. */
    method MarkDead()
      requires Ready()
      modifies this
      ensures View() == MarkUnreachable(old(View())) && Ready()
    {
      if frames != [] {
        var f := frames[|frames| - 1];
        values := Truncate(values, f.height);
        frames := frames[|frames| - 1 := f.(unreachable := true)];
      }
    }

    // ----- br_table results -----

    method CheckBrTableResult(t: ResultType) returns (r: Result<(), Error>)
      requires Ready()
      modifies this
      ensures Ready() && Same(r, CheckTable(old(View()), t), View())
    {
      if table.Some? {
        r := if table.value != t then Err(BrTableResultTypeMismatch) else Ok(());
      } else {
        table := Some(t);
        r := Ok(());
      }
    }

    method CheckAndClearBrTableResult(t: ResultType) returns (r: Result<(), Error>)
      requires Ready()
      modifies this
      ensures Ready() && Same(r, CheckAndClearTable(old(View()), t), View())
    {
      if table.Some? {
        if table.value != t { return Err(BrTableResultTypeMismatch); }
        table := None;
      }
      r := Ok(());
    }

    // ----- locals -----

    /** `get_local`: a search through the parameters, then through the groups of locals with a 16-bit
        index counter. */
    method FindVariable(x: nat) returns (r: Result<LocalVar, Error>)
      requires Ready()
      ensures r == GetLocal(c, x)
    {
      if x > 0xFFFF { return Err(LocalIdxOutOfRange); }
      var params := c.sig.params;
      WordLenAtLeast(params);
      var offset := 0;
      var i := 0;
      while i < |params|
        invariant i <= |params| && i <= x && offset == WordLen(params[..i])
      {
        if x == i {
          WordLenPrefix(params, i, |params|);
          assert params[..|params|] == params;
          return Ok(LocalVar(offset - WordLen(params), params[i]));
        }
        assert params[..i + 1][..i] == params[..i];
        offset := offset + Width(params[i]);
        i := i + 1;
      }
      r := FindDeclared(x);
    }

    method FindDeclared(x: Word) returns (r: Result<LocalVar, Error>)
      requires Ready() && |c.sig.params| <= x && |c.sig.params| <= 0xFF
      ensures r == FindLocal(c.groups, x, |c.sig.params|, 0)
    {
      var offset: nat := 0;
      var index: Word := |c.sig.params|;
      var j := 0;
      while j < |c.groups|
        invariant j <= |c.groups| && index <= x
        invariant FindLocal(c.groups, x, |c.sig.params|, 0) == FindLocal(c.groups[j..], x, index, offset)
      {
        var g := c.groups[j];
        assert c.groups[j..][0] == g && c.groups[j..][1..] == c.groups[j + 1..];
        var end: Word := (index + g.count) % 0x1_0000;
        if end > x {
          var w := offset + Width(g.ty) * (x - index);
          if w > 0x7FFF - 2 { return Err(LocalIdxOutOfRange); }
          return Ok(LocalVar(w + 2, g.ty));
        }
        offset := offset + Width(g.ty) * g.count;
        index := end;
        j := j + 1;
      }
      r := Err(LocalIdxOutOfRange);
    }

    // ----- control frames -----

    method PushFrame(kind: BlockKind, branch: ResultType, out: ResultType, target: int) returns (r: Result<(), Error>)
      requires Ready()
      modifies this
      ensures Ready() && Same(r, PushControl(c, old(View()), kind, branch, out, target), View())
    {
      if |frames| >= c.options.maxFrames { return Err(OutOfMemory); }
      frames := frames + [Frame(kind, branch, out, |values|, target, false)];
      r := Ok(());
    }

    /** `write_label_target`. */
    method WriteLabel(l: nat) returns (r: Result<ResultType, Error>)
      requires Ready() && StackOk(View())
      modifies this, code, code.Repr
      ensures Ready() && fresh(code.Repr - old(code.Repr))
      ensures SameWith(r, WriteLabelTarget(c, old(View()), l), View())
    {
      hide Pack, JumpOffset, Words32;
      if l >= |frames| { return Err(InvalidLabelIndex); }
      var idx := |frames| - 1 - l;
      if idx == 0 {
        var _ :- Write32(Pack(ResultWords(c.sig.result), 0, 0));
        return Ok(c.sig.result);
      }
      var pc := code.Pc();
      var f := frames[idx];
      HeightsInStack(View(), idx);
      var delta := HeightAbove(f);
      if delta > 0xFF { return Err(LabelStackJumpTooDeep); }
      var offset := JumpOffset(pc, f.target);
      if offset.Err? { return Err(offset.error); }
      if f.kind.Loop? {
        var _ :- Write32(Pack(0, delta, offset.value));
        r := Ok(None);
      } else {
        frames := frames[idx := f.(target := pc)];
        var _ :- Write32(Pack(ResultWords(f.out), delta, offset.value));
        r := Ok(f.branch);
      }
    }

    /** Operand words above a frame's start. */
    method HeightAbove(f: Frame) returns (delta: nat)
      requires Ready() && f.height <= |values|
      ensures delta == Above(View(), f)
    {
      var all := StackHeight();
      var below := StackHeightFor(f.height);
      HeightTruncate(values, f.height);
      assert Truncate(values, f.height) == values[..f.height] by {
        if f.height == |values| { assert values[..f.height] == values; }
      }
      delta := all - below;
    }

    /** The part shared by `pop_control` and `pop_control_and_patch_if`. */
    method CheckResults() returns (r: Result<(), Error>)
      requires Ready() && frames != []
      modifies this
      ensures Ready() && Same(r, DropFrame(old(View())), View())
    {
      var f := frames[|frames| - 1];
      var _ :- PopResultType(f.out);
      if |values| != f.height { return Err(BlockResultTypeMismatch); }
      frames := frames[..|frames| - 1];
      r := Ok(());
    }

    /** `pop_control`. */
    method PopFrame(ghost lo: nat) returns (r: Result<ResultType, Error>)
      requires Ready() && ChainsOk(View(), lo)
      modifies this, code, code.Repr
      ensures Ready() && code.Repr == old(code.Repr)
      ensures SameWith(r, PopControl(c, old(View())), View())
    {
      hide Slot, Jump, Resolved, SetSlot, WithJump, JumpOffset, DropFrame, PopResult;
      assert FrameOk(View(), |frames| - 1, lo);
      var f := frames[|frames| - 1];
      ghost var st1 := DropFrame(View());
      if st1.Ok? { DropFrameCode(View()); }
      var _ :- CheckResults();
      match f.kind {
        case Loop =>
        case Block =>
          var pc := code.Pc();
          if f.target != SENTINEL { ChainLower(code.Contents(), f.target, lo); }
          var _ :- code.Backpatch(f.target, pc);
        case If =>
          if f.out.Some? { return Err(BlockResultTypeMismatch); }
          var pc := code.Pc();
          if f.target != SENTINEL { ChainLower(code.Contents(), f.target, lo); }
          var _ :- code.Backpatch(f.target, pc);
      }
      r := Ok(f.out);
    }

    /** `pop_control_and_patch_if`: the results, and the chain that remains for the else part. */
    method PopFrameAndPatchIf(ghost lo: nat) returns (r: Result<(ResultType, int), Error>)
      requires Ready() && ChainsOk(View(), lo)
      modifies this, code, code.Repr
      ensures Ready() && code.Repr == old(code.Repr)
      ensures old(frames) != []
      ensures var f := Innermost(old(View()));
              if !f.kind.If? then r == Err(InvalidElseBlock)
              else
                match DropFrame(old(View()))
                case Err(e) => r == Err(e)
                case Ok(st3) =>
                  match SplitTail(c.options, st3.code, f.target, f.target, SENTINEL, |st3.code|, 0)
                  case Err(e) => r == Err(e)
                  case Ok(v) => r == Ok((f.out, v.1)) && View() == st3.(code := v.0)
    {
      hide Slot, Jump, Resolved, SetSlot, WithJump, JumpOffset, DropFrame, PopResult;
      assert FrameOk(View(), |frames| - 1, lo);
      var f := frames[|frames| - 1];
      if !f.kind.If? { return Err(InvalidElseBlock); }
      ghost var st1 := DropFrame(View());
      if st1.Ok? { DropFrameCode(View()); }
      var _ :- CheckResults();
      var pc := code.Pc();
      ChainLower(code.Contents(), f.target, lo);
      var rest :- code.SplitTail(f.target, pc);
      r := Ok((f.out, rest));
    }
  }

  /** `stack_height_for` is asked for heights inside the stack only: its assertion holds. */
  lemma HeightsInStack(st: State, idx: nat)
    requires StackOk(st) && idx < |st.frames|
    ensures st.frames[idx].height <= |st.values|
  {
    assert st.frames[idx].height <= Innermost(st).height;
  }

  lemma {:induction false} ChainLower(code: seq<Word>, a: int, lo: nat)
    requires ChainOk(code, a, lo)
    ensures ChainOk(code, a, 0)
    decreases a
  {
    hide Slot, Jump;
    if Jump(Slot(code, a)) != 0 { ChainLower(code, a + Jump(Slot(code, a)), lo); }
  }
}
