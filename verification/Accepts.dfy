/** What the compiler accepts, with every limit spelled out: the valid bodies whose words fit the pages,
    whose blocks fit the control stack, and at whose every step there is room. */
module Accepts {
  import opened Values
  import opened Label
  import opened Ir
  import opened Wasm
  import opened Text
  import opened Chains
  import opened Frames
  import opened Extension
  import opened Typing
  import opened Locals
  import opened Validity
  import opened Room
  import Bodies

  // ----- what can be counted beforehand -----

  /** The words of a sequence: three for an `if` and its slot, three for the branch that `else` writes, none
      for an `end`. */
  function Words(code: Code): nat {
    match code
    case Done => 0
    case Plain(op, next) => OpWords(op) + Words(next)
    case Block(_, body, next) => Words(body) + Words(next)
    case Loop(_, body, next) => Words(body) + Words(next)
    case If(_, thn, next) => 3 + Words(thn) + Words(next)
    case IfElse(_, thn, els, next) => 3 + Words(thn) + 3 + Words(els) + Words(next)
  }

  function Max(a: nat, b: nat): nat { if a < b then b else a }

  /** How deep its blocks are nested. */
  function Nesting(code: Code): nat {
    match code
    case Done => 0
    case Plain(_, next) => Nesting(next)
    case Block(_, body, next) => Max(1 + Nesting(body), Nesting(next))
    case Loop(_, body, next) => Max(1 + Nesting(body), Nesting(next))
    case If(_, thn, next) => Max(1 + Nesting(thn), Nesting(next))
    case IfElse(_, thn, els, next) => Max(Max(1 + Nesting(thn), 1 + Nesting(els)), Nesting(next))
  }

  // ----- the steps of a compilation -----

  datatype Step = Do(op: Op) | Enter | Turn | Leave | Stop

  /** A step, and the state it is taken in. */
  datatype Visit = Visit(st: State, step: Step)

  function CompileFrom(c: Context, r: Result<State, Error>, code: Code): Result<State, Error> {
    if r.Err? then r else Compile(c, r.value, code)
  }

  function ElseFrom(c: Context, r: Result<State, Error>): Result<State, Error> {
    if r.Err? then r else Else(c, r.value)
  }

  function Turning(r: Result<State, Error>): seq<Visit> { if r.Err? then [] else [Visit(r.value, Turn)] }

  /** The steps taken in compiling a sequence, up to the first that is refused. */
  function Trail(c: Context, st: State, code: Code): seq<Visit>
    decreases code, 2
  {
    match code
    case Done => []
    case Plain(op, next) => [Visit(st, Do(op))] + TrailFrom(c, CompileOp(c, st, op), next)
    case Block(rt, body, next) =>
      var r := EnterBlock(c, st, rt);
      [Visit(st, Enter)] + TrailFrom(c, r, body) + EndTrail(c, CompileFrom(c, r, body), next)
    case Loop(rt, body, next) =>
      var r := EnterLoop(c, st, rt);
      [Visit(st, Enter)] + TrailFrom(c, r, body) + EndTrail(c, CompileFrom(c, r, body), next)
    case If(rt, thn, next) =>
      var r := EnterIf(c, st, rt);
      [Visit(st, Enter)] + TrailFrom(c, r, thn) + EndTrail(c, CompileFrom(c, r, thn), next)
    case IfElse(rt, thn, els, next) =>
      var r := EnterIf(c, st, rt);
      var r2 := CompileFrom(c, r, thn);
      var r3 := ElseFrom(c, r2);
      [Visit(st, Enter)] + TrailFrom(c, r, thn)
      + Turning(r2) + TrailFrom(c, r3, els) + EndTrail(c, CompileFrom(c, r3, els), next)
  }

  function TrailFrom(c: Context, r: Result<State, Error>, code: Code): seq<Visit>
    decreases code, 3
  {
    if r.Err? then [] else Trail(c, r.value, code)
  }

  /** The `end` of a block, and what follows. */
  function EndTrail(c: Context, r: Result<State, Error>, next: Code): seq<Visit>
    decreases next, 4
  {
    if r.Err? then [] else [Visit(r.value, Leave)] + TrailFrom(c, ExitBlock(c, r.value), next)
  }

  /** The steps taken in compiling a function. */
  function FuncTrail(c: Context, code: seq<Word>, body: Code): seq<Visit> {
    var r := Compile(c, Start(c, code), body);
    Trail(c, Start(c, code), body) + if r.Err? then [] else [Visit(r.value, Stop)]
  }

  // ----- room at every step -----

  predicate VisitRoom(c: Context, v: Visit) {
    match v.step
    case Do(op) => Validity.Open(v.st) ==> OpRoom(c, v.st, op)
    case Turn => v.st.frames != [] ==> TurnRoom(c, v.st)
    case Leave => v.st.frames != [] ==> LeaveRoom(c, v.st)
    case _ => true
  }

  predicate AllRoom(c: Context, t: seq<Visit>) { forall v :: v in t ==> VisitRoom(c, v) }

  lemma AllRoomJoin(c: Context, a: seq<Visit>, b: seq<Visit>)
    ensures AllRoom(c, a + b) <==> AllRoom(c, a) && AllRoom(c, b)
  {
    hide VisitRoom;
    if AllRoom(c, a + b) {
      forall v | v in a ensures VisitRoom(c, v) { assert v in a + b; }
      forall v | v in b ensures VisitRoom(c, v) { assert v in a + b; }
    }
  }

  lemma AllRoomOne(c: Context, v: Visit)
    ensures AllRoom(c, [v]) <==> VisitRoom(c, v)
  {
    if AllRoom(c, [v]) { assert v in [v]; }
  }

  /** Accepted, `r` took `n` words and `d` more frames at most, and there was room at every step of `t`;
      refused with room for all of it, it was not for a limit. */
  predicate Measured(c: Context, st: State, r: Result<State, Error>, t: seq<Visit>, n: nat, d: nat, frames: nat) {
    && (r.Ok? ==>
          && |r.value.code| == |st.code| + n && |r.value.frames| == frames
          && |st.frames| + d <= c.options.maxFrames && AllRoom(c, t) && (n > 0 ==> |st.code| + n <= AllWords(c)))
    && (r.Err? && |st.code| + n <= AllWords(c) && |st.frames| + d <= c.options.maxFrames && AllRoom(c, t) ==>
          !Limit(r.error))
  }

  /** Every step of an accepted sequence had room; a sequence that has room is not refused for a limit. */
  lemma {:induction false} CodeRoom(c: Context, st: State, code: Code, labels: seq<ResultType>, lo: nat)
    requires Ready(c, st, labels, lo) && |st.frames| <= c.options.maxFrames
    ensures Measured(c, st, Compile(c, st, code), Trail(c, st, code), Words(code), Nesting(code), |st.frames|)
    decreases code, 2
  {
    hide Sound, ChainsOk, Limit, EnterBlock, EnterLoop, EnterIf, ExitBlock, Else, CompileOp, Entered;
    hide Opened, Ready, VisitRoom, AllRoom, OpWords;
    match code
    case Done => NoRoomNeeded(c);
    case Plain(op, next) => PlainRoom(c, st, code, labels, lo);
    case Block(rt, body, next) =>
      EnterReady(c, st, rt, labels, false, lo);
      EnterRoom(c, st, rt, false);
      var r := EnterBlock(c, st, rt);
      EnterVisit(c, st, TrailFrom(c, r, body), EndTrail(c, CompileFrom(c, r, body), next));
      if EnterBlock(c, st, rt).Ok? {
        ReadyParts(c, st, labels, lo);
        BodyRoom(c, st, EnterBlock(c, st, rt).value, rt, rt, code, body, next, labels, lo);
      }
    case Loop(rt, body, next) =>
      EnterReady(c, st, rt, labels, true, lo);
      EnterRoom(c, st, rt, true);
      var r := EnterLoop(c, st, rt);
      EnterVisit(c, st, TrailFrom(c, r, body), EndTrail(c, CompileFrom(c, r, body), next));
      if EnterLoop(c, st, rt).Ok? {
        ReadyParts(c, st, labels, lo);
        BodyRoom(c, st, EnterLoop(c, st, rt).value, rt, None, code, body, next, labels, lo);
      }
    case If(rt, thn, next) =>
      ReadyParts(c, st, labels, lo);
      FitsOpen(st);
      EnterIfRoom(c, st, rt);
      var r := EnterIf(c, st, rt);
      EnterVisit(c, st, TrailFrom(c, r, thn), EndTrail(c, CompileFrom(c, r, thn), next));
      if EnterIf(c, st, rt).Ok? {
        EnterIfReady(c, st, rt, labels, lo);
        BodyRoom(c, st, EnterIf(c, st, rt).value, rt, rt, code, thn, next, labels, lo);
      }
    case IfElse(rt, thn, els, next) =>
      ReadyParts(c, st, labels, lo);
      FitsOpen(st);
      EnterIfRoom(c, st, rt);
      if EnterIf(c, st, rt).Ok? {
        EnterIfReady(c, st, rt, labels, lo);
        ArmsRoom(c, st, EnterIf(c, st, rt).value, code, labels, lo);
      }
  }

  lemma NoRoomNeeded(c: Context)
    ensures AllRoom(c, [])
  {
  }

  /** Entering a block needs no room of its own. */
  lemma EnterVisit(c: Context, st: State, a: seq<Visit>, b: seq<Visit>)
    ensures AllRoom(c, [Visit(st, Enter)] + a + b) <==> AllRoom(c, a + b)
  {
    assert [Visit(st, Enter)] + a + b == [Visit(st, Enter)] + (a + b);
    AllRoomOne(c, Visit(st, Enter));
    AllRoomJoin(c, [Visit(st, Enter)], a + b);
  }

  lemma {:induction false} PlainRoom(c: Context, st: State, code: Code, labels: seq<ResultType>, lo: nat)
    requires code.Plain? && Ready(c, st, labels, lo) && |st.frames| <= c.options.maxFrames
    ensures Measured(c, st, Compile(c, st, code), Trail(c, st, code), Words(code), Nesting(code), |st.frames|)
    decreases code, 1
  {
    hide ChainsOk, LabelsOk, Limit, CompileOp, Ready, OpWords, AllRoom, OpRoom, StackOk;
    var (op, next) := (code.op, code.next);
    ReadyParts(c, st, labels, lo);
    OpRoomExactly(c, st, op, lo);
    var r := CompileOp(c, st, op);
    AllRoomOne(c, Visit(st, Do(op)));
    AllRoomJoin(c, [Visit(st, Do(op))], TrailFrom(c, r, next));
    if r.Ok? {
      OpReady(c, st, op, labels, lo);
      CodeRoom(c, r.value, next, labels, lo);
    }
  }

  /** A body in its frame, the `end`, and what follows. */
  lemma {:induction false} BodyRoom(
    c: Context, st: State, st1: State, rt: ResultType, label_: ResultType, whole: Code, body: Code, next: Code,
    labels: seq<ResultType>, lo: nat)
    requires body < whole && next < whole && Sound(c, st, labels) && Entered(st, st1, rt)
    requires Ready(c, st1, labels + [label_], lo) && |st1.frames| <= c.options.maxFrames
    ensures var r := (var st2 :- Compile(c, st1, body);
                      var st3 :- ExitBlock(c, st2);
                      Compile(c, st3, next));
            var t := Trail(c, st1, body) + EndTrail(c, Compile(c, st1, body), next);
            && (r.Ok? ==>
                  && |r.value.code| == |st1.code| + Words(body) + Words(next) && |r.value.frames| == |st1.frames| - 1
                  && |st1.frames| + Nesting(body) <= c.options.maxFrames
                  && |st1.frames| - 1 + Nesting(next) <= c.options.maxFrames && AllRoom(c, t)
                  && (Words(body) + Words(next) > 0 ==> |st1.code| + Words(body) + Words(next) <= AllWords(c)))
            && (r.Err? && |st1.code| + Words(body) + Words(next) <= AllWords(c)
                  && |st1.frames| + Nesting(body) <= c.options.maxFrames
                  && |st1.frames| - 1 + Nesting(next) <= c.options.maxFrames && AllRoom(c, t) ==>
                  !Limit(r.error))
    decreases whole, 0
  {
    hide Sound, ChainsOk, Limit, ExitBlock, Compile, Ready, StackStep, Closed, Trail, Words, Nesting, AllRoom;
    hide LeaveRoom;
    CodeRoom(c, st1, body, labels + [label_], lo);
    AllRoomJoin(c, Trail(c, st1, body), EndTrail(c, Compile(c, st1, body), next));
    if Compile(c, st1, body).Ok? {
      CodeReady(c, st1, body, labels + [label_], lo);
      var st2 := Compile(c, st1, body).value;
      ReadyParts(c, st2, labels + [label_], lo);
      InnerSame(st1, st2);
      ExitRoom(c, st2, lo);
      AllRoomOne(c, Visit(st2, Leave));
      AllRoomJoin(c, [Visit(st2, Leave)], TrailFrom(c, ExitBlock(c, st2), next));
      if ExitBlock(c, st2).Ok? {
        ExitCloses(c, st2, lo);
        CloseSlots(st2, ExitBlock(c, st2).value, lo);
        hide Entered;
        SoundStack(c, st, labels);
        ExitReady(c, st, st1, st2, rt, labels, lo);
        CodeRoom(c, ExitBlock(c, st2).value, next, labels, lo);
      }
    }
  }

  /** The two arms of an if. */
  lemma {:induction false} ArmsRoom(
    c: Context, st: State, st1: State, code: Code, labels: seq<ResultType>, lo: nat)
    requires code.IfElse? && Ready(c, st, labels, lo) && Entered(st, st1, code.rt)
    requires EnterIf(c, st, code.rt) == Result.Ok(st1)
    requires Ready(c, st1, labels + [code.rt], lo) && Innermost(st1).kind.If? && |st1.frames| <= c.options.maxFrames
    requires |st1.code| == |st.code| + 3 && |st1.frames| == |st.frames| + 1
    ensures Measured(c, st, Compile(c, st, code), Trail(c, st, code), Words(code), Nesting(code), |st.frames|)
    decreases code, 1
  {
    hide Sound, ChainsOk, Limit, ExitBlock, Ready, StackStep, Else, AllRoom, TurnRoom, EnterIf, StackOk, LabelsOk;
    var (rt, thn, els, next) := (code.rt, code.thn, code.els, code.next);
    CodeRoom(c, st1, thn, labels + [rt], lo);
    var r2 := Compile(c, st1, thn);
    var r3 := ElseFrom(c, r2);
    var end := EndTrail(c, CompileFrom(c, r3, els), next);
    ArmTrails(c, st, Trail(c, st1, thn), Turning(r2), TrailFrom(c, r3, els), end);
    if r2.Ok? {
      CodeReady(c, st1, thn, labels + [rt], lo);
      var st2 := r2.value;
      InnerSame(st1, st2);
      ReadyParts(c, st2, labels + [rt], lo);
      ElseRoom(c, st2, lo);
      AllRoomOne(c, Visit(st2, Turn));
      if Else(c, st2).Ok? {
        ElseReady(c, st, st1, st2, rt, labels, lo);
        var (base, st3) := (AfterThen(st, st2), Else(c, st2).value);
        hide Entered;
        BodyRoom(c, base, st3, rt, rt, code, els, next, labels, lo);
      }
    }
  }

  lemma ArmTrails(c: Context, st: State, a: seq<Visit>, b: seq<Visit>, d: seq<Visit>, e: seq<Visit>)
    ensures AllRoom(c, [Visit(st, Enter)] + a + b + d + e) <==> AllRoom(c, a) && AllRoom(c, b) && AllRoom(c, d + e)
  {
    hide AllRoom;
    assert [Visit(st, Enter)] + a + b + d + e == [Visit(st, Enter)] + a + (b + (d + e));
    EnterVisit(c, st, a, b + (d + e));
    AllRoomJoin(c, a, b + (d + e));
    AllRoomJoin(c, b, d + e);
  }

  /** A valid instruction is accepted exactly when there is room for it and its words, and then leaves operands
      of the types its rule says. */
  lemma OpAcceptsExactly(
    c: Context, st: State, op: Op, labels: seq<ResultType>, pre: seq<ValType>, post: seq<ValType>, lo: nat)
    requires Ready(c, st, labels, lo) && Fits(st, pre) && OpValid(c, labels, op, pre, post) && |st.code| <= AllWords(c)
    ensures Validity.Open(st)
    ensures CompileOp(c, st, op).Ok? <==> OpRoom(c, st, op) && |st.code| + OpWords(op) <= AllWords(c)
    ensures CompileOp(c, st, op).Ok? ==> Fits(CompileOp(c, st, op).value, post)
  {
    hide ChainsOk, LabelsOk, Limit, CompileOp, Ready, OpWords, OpRoom, StackOk, Fits, OpValid;
    ReadyParts(c, st, labels, lo);
    OpRoomExactly(c, st, op, lo);
    OpAccepts(c, st, op, labels, pre, post, lo);
  }

  /** A valid sequence is accepted exactly when its words fit the pages, its nesting fits the control stack and
      there is room at every step, and then leaves operands of the types it is valid for. */
  lemma CodeAcceptsExactly(
    c: Context, st: State, code: Code, labels: seq<ResultType>, pre: seq<ValType>, post: seq<ValType>, lo: nat)
    requires Ready(c, st, labels, lo) && Fits(st, pre) && CodeValid(c, labels, code, pre, post)
    requires |st.frames| <= c.options.maxFrames && |st.code| <= AllWords(c)
    ensures Compile(c, st, code).Ok? <==>
            && |st.code| + Words(code) <= AllWords(c) && |st.frames| + Nesting(code) <= c.options.maxFrames
            && AllRoom(c, Trail(c, st, code))
    ensures Compile(c, st, code).Ok? ==> Fits(Compile(c, st, code).value, post)
  {
    hide ChainsOk, LabelsOk, Limit, Compile, Ready, Words, Nesting, AllRoom, Trail, StackOk, Fits, CodeValid;
    CodeRoom(c, st, code, labels, lo);
    CodeAccepts(c, st, code, labels, pre, post, lo);
  }

  // ----- the reported usage -----

  /** Some step of `t` is taken at operand height `h`. */
  predicate Attains(t: seq<Visit>, h: nat) { exists i :: 0 <= i < |t| && Height(t[i].st.values) == h }

  predicate Below(t: seq<Visit>, h: nat) { forall i :: 0 <= i < |t| ==> Height(t[i].st.values) <= h }

  lemma PeakJoin(a: seq<Visit>, b: seq<Visit>, h: nat)
    ensures Attains(a + b, h) <==> Attains(a, h) || Attains(b, h)
    ensures Below(a + b, h) <==> Below(a, h) && Below(b, h)
  {
    hide Height;
    if Attains(b, h) {
      var i :| 0 <= i < |b| && Height(b[i].st.values) == h;
      assert (a + b)[|a| + i] == b[i];
    }
    if Attains(a, h) {
      var i :| 0 <= i < |a| && Height(a[i].st.values) == h;
      assert (a + b)[i] == a[i];
    }
    if Below(a + b, h) {
      forall i | 0 <= i < |a| ensures Height(a[i].st.values) <= h { assert (a + b)[i] == a[i]; }
      forall i | 0 <= i < |b| ensures Height(b[i].st.values) <= h { assert (a + b)[|a| + i] == b[i]; }
    }
  }

  /** From `st` to `st'` over the steps `t`: the mark covers every height met, and where it has risen it is one
      of them, or the height behind the last step. */
  predicate Peaks(st: State, st': State, t: seq<Visit>) {
    && st.highwater <= st'.highwater && Below(t, st'.highwater)
    && (st'.highwater == st.highwater || Attains(t, st'.highwater) || Height(st'.values) == st'.highwater)
  }

  /** Two parts, the second of which begins with a step or is empty. */
  lemma PeaksJoin(st: State, st1: State, st2: State, a: seq<Visit>, b: seq<Visit>)
    requires StackOk(st1) && Peaks(st, st1, a) && Peaks(st1, st2, b) && (if b == [] then st2 == st1 else b[0].st == st1)
    ensures Peaks(st, st2, a + b)
  {
    hide Height, StackOk;
    PeakJoin(a, b, st2.highwater);
    if b != [] && st2.highwater == st1.highwater && Height(st1.values) == st1.highwater {
      assert Height(b[0].st.values) == st2.highwater;
    }
  }

  lemma PushPeak(c: Context, st: State, r: ResultType)
    requires PushResult(c, st, r).Ok?
    ensures var st' := PushResult(c, st, r).value;
            st'.highwater == st.highwater || st'.highwater == Height(st'.values)
  {
  }

  /** An instruction raises the mark to the height behind it or not at all. */
  lemma OpPeak(c: Context, st: State, op: Op)
    requires StackOk(st) && CompileOp(c, st, op).Ok?
    ensures var st' := CompileOp(c, st, op).value;
            st'.highwater == st.highwater || st'.highwater == Height(st'.values)
  {
    hide StackOk, Height, PopTypes, PopExpect, PopAny, TableBranches, GetLocal, Imm8Or16, WriteLabelTarget;
    hide Imm8, Encode, PopResult, PushResult, PushOperand, TypeTag;
    FitsOpen(st);
    if Inline(op) {
      NamedIf(c, st, op);
      hide CompileOp;
      InlineShape(c, st, op);
      hide TakenBy, GivenBy, EmittedBy;
      TakeTypes(st, TakenBy(c, op));
      PushPeak(c, PopTypes(st, TakenBy(c, op)).value, GivenBy(c, op));
    } else if op.BrIf? {
      BrIfPeak(c, st, op.l);
    } else if op.Select? {
      SelectPeak(c, st);
    } else {
      OtherPeak(c, st, op);
    }
  }

  lemma BrIfPeak(c: Context, st: State, l: nat)
    requires StackOk(st) && CompileBrIf(c, st, l).Ok?
    ensures var st' := CompileBrIf(c, st, l).value;
            st'.highwater == st.highwater || st'.highwater == Height(st'.values)
  {
    hide StackOk, Height, PopExpect, WriteLabelTarget, PopResult, PushResult, Imm8, StackStep;
    FitsOpen(st);
    TakeOne(st, Known(ValType.I32));
    PopExpectPops(st, Known(ValType.I32));
    var st0 := PopType(st, ValType.I32).value;
    PoppedOk(st, st0);
    var st1 := Emit(c, st0, [Imm8(BR_IF, 0)]).value;
    EmitOk(c, st0, [Imm8(BR_IF, 0)]);
    LabelOk(c, st1, l);
    var (st2, r) := WriteLabelTarget(c, st1, l).value;
    FitsOpen(st2);
    TakeResult(st2, r);
    PushPeak(c, PopResult(st2, r).value, r);
  }

  lemma SelectPeak(c: Context, st: State)
    requires StackOk(st) && CompileSelect(c, st).Ok?
    ensures var st' := CompileSelect(c, st).value;
            st'.highwater == st.highwater || st'.highwater == Height(st'.values)
  {
    hide StackOk, Height, PopExpect, PopAny, Imm8, TypeTag;
    FitsOpen(st);
    TakeOne(st, Known(ValType.I32));
    var st1 := PopType(st, ValType.I32).value;
    TakeAny(st1);
    TakeOne(PopAny(st1).value.0, PopAny(st1).value.1);
  }

  /** The others push nothing. */
  lemma OtherPeak(c: Context, st: State, op: Op)
    requires StackOk(st) && CompileOp(c, st, op).Ok? && !Inline(op) && !op.BrIf? && !op.Select?
    ensures CompileOp(c, st, op).value.highwater == st.highwater
  {
    hide StackOk, Height, PopExpect, PopAny, TableBranches, Imm8Or16, WriteLabelTarget, Imm8, PopResult, TypeTag;
    FitsOpen(st);
    match op
    case Br(l) =>
      var st1 := Emit(c, st, [Imm8(BR, 0)]).value;
      EmitOk(c, st, [Imm8(BR, 0)]);
      SlotPeak(c, st1, l);
    case BrTable(ls, d) => TablePeak(c, st, ls, d);
    case Return => TakeResult(st, c.sig.result);
    case Drop => TakeAny(st);
    case _ =>
  }

  /** A slot and the results of its label. */
  lemma SlotPeak(c: Context, st: State, l: nat)
    requires StackOk(st) && WriteLabelTarget(c, st, l).Ok?
    ensures var (st1, r) := WriteLabelTarget(c, st, l).value;
            && st1.highwater == st.highwater && Validity.Open(st1)
            && (PopResult(st1, r).Ok? ==> PopResult(st1, r).value.highwater == st.highwater)
  {
    hide StackOk, WriteLabelTarget, PopResult;
    LabelOk(c, st, l);
    var (st1, r) := WriteLabelTarget(c, st, l).value;
    FitsOpen(st1);
    TakeResult(st1, r);
  }

  lemma TablePeak(c: Context, st: State, ls: seq<nat>, d: nat)
    requires StackOk(st) && CompileBrTable(c, st, ls, d).Ok?
    ensures CompileBrTable(c, st, ls, d).value.highwater == st.highwater
  {
    hide StackOk, Height, PopExpect, TableBranches, Imm8Or16, WriteLabelTarget, PopResult, StackStep;
    FitsOpen(st);
    TakeOne(st, Known(ValType.I32));
    PopExpectPops(st, Known(ValType.I32));
    var st0 := PopType(st, ValType.I32).value;
    PoppedOk(st, st0);
    var st1 := Emit(c, st0, Imm8Or16(BR_TABLE, |ls|)).value;
    EmitOk(c, st0, Imm8Or16(BR_TABLE, |ls|));
    CasesPeak(c, st1, ls);
    var st3 := TableBranches(c, st1, ls).value;
    TableOk(c, st1, ls);
    SlotPeak(c, st3, d);
    var (st4, r) := WriteLabelTarget(c, st3, d).value;
    var st5 := CheckAndClearTable(st4, r).value;
    TakeResult(st4, r);
    assert Validity.Open(st5);
    TakeResult(st5, r);
  }

  lemma {:induction false} CasesPeak(c: Context, st: State, ls: seq<nat>)
    requires StackOk(st) && TableBranches(c, st, ls).Ok?
    ensures TableBranches(c, st, ls).value.highwater == st.highwater
    decreases |ls|
  {
    if ls != [] {
      hide StackOk, WriteLabelTarget, StackStep;
      LabelOk(c, st, ls[0]);
      var (st1, r) := WriteLabelTarget(c, st, ls[0]).value;
      var st2 := CheckTable(st1, r).value;
      CodeOnlyOk(st1, st2);
      CasesPeak(c, st2, ls[1..]);
    }
  }

  /** `t` starts in `st`, or nothing happens. */
  predicate StartsAt(st: State, st': State, t: seq<Visit>) { if t == [] then st' == st else t[0].st == st }

  lemma OneStep(st: State, st': State, step: Step)
    requires StackOk(st) && st.highwater <= st'.highwater
    requires st'.highwater == st.highwater || st'.highwater == Height(st'.values)
    ensures Peaks(st, st', [Visit(st, step)]) && StartsAt(st, st', [Visit(st, step)])
  {
  }

  lemma ExitPeak(c: Context, st: State)
    requires StackOk(st) && ExitBlock(c, st).Ok?
    ensures Peaks(st, ExitBlock(c, st).value, [Visit(st, Leave)])
  {
    hide Height, Backpatch, PushResult, DropFrame;
    DropFrameValues(st);
    var st1 := PopControl(c, st).value.0;
    assert st1.highwater == st.highwater;
    PushPeak(c, st1, PopControl(c, st).value.1);
    PushRises(c, st1, PopControl(c, st).value.1);
    OneStep(st, ExitBlock(c, st).value, Leave);
  }

  lemma PushRises(c: Context, st: State, r: ResultType)
    ensures PushResult(c, st, r).Ok? ==> PushResult(c, st, r).value.highwater >= st.highwater
  {
    hide Height;
  }

  /** The high-water mark of a sequence is attained and covers all. */
  lemma {:induction false} CodePeak(c: Context, st: State, code: Code)
    requires StackOk(st) && Compile(c, st, code).Ok?
    ensures Peaks(st, Compile(c, st, code).value, Trail(c, st, code))
    ensures StartsAt(st, Compile(c, st, code).value, Trail(c, st, code))
    decreases code, 2
  {
    hide StackOk, EnterBlock, EnterLoop, EnterIf, ExitBlock, Else, CompileOp, Entered, StackStep, Peaks, Height;
    match code
    case Done => NoPeak(st);
    case Plain(op, next) =>
      var st1 := CompileOp(c, st, op).value;
      OpPeak(c, st, op);
      OpOk(c, st, op);
      Rises(st, st1);
      OneStep(st, st1, Do(op));
      CodePeak(c, st1, next);
      PeaksJoin(st, st1, Compile(c, st, code).value, [Visit(st, Do(op))], Trail(c, st1, next));
    case Block(rt, body, next) =>
      EnterOk(c, st, rt);
      BodyPeak(c, st, st, EnterBlock(c, st, rt).value, rt, code, body, next, Enter);
      Grouped(c, st, EnterBlock(c, st, rt).value, body, next);
    case Loop(rt, body, next) =>
      EnterOk(c, st, rt);
      BodyPeak(c, st, st, EnterLoop(c, st, rt).value, rt, code, body, next, Enter);
      Grouped(c, st, EnterLoop(c, st, rt).value, body, next);
    case If(rt, thn, next) =>
      EnterIfOk(c, st, rt);
      BodyPeak(c, st, st, EnterIf(c, st, rt).value, rt, code, thn, next, Enter);
      Grouped(c, st, EnterIf(c, st, rt).value, thn, next);
    case IfElse(rt, thn, els, next) => ArmsPeak(c, st, code);
  }

  /** The two arms of an if. */
  lemma {:induction false} ArmsPeak(c: Context, st: State, code: Code)
    requires code.IfElse? && StackOk(st) && Compile(c, st, code).Ok?
    ensures Peaks(st, Compile(c, st, code).value, Trail(c, st, code))
    decreases code, 1
  {
    hide StackOk, EnterIf, ExitBlock, Else, Entered, StackStep, Peaks, Height, EndTrail;
    var (rt, thn, els, next) := (code.rt, code.thn, code.els, code.next);
    var st1 := EnterIf(c, st, rt).value;
    EnterIfOk(c, st, rt);
    EnteredOk(st, st1, rt);
    EnterPeak(st, st1, rt);
    CompileOk(c, st1, thn);
    CodePeak(c, st1, thn);
    var st2 := Compile(c, st1, thn).value;
    ElseOk(c, st, st1, st2, rt);
    AfterThenOk(st, st1, st2, rt);
    var r3 := Else(c, st2);
    BodyPeak(c, AfterThen(st, st2), st2, r3.value, rt, code, els, next, Turn);
    var (turn, arm, end) := ([Visit(st2, Turn)], Trail(c, r3.value, els), EndTrail(c, Compile(c, r3.value, els), next));
    var front := [Visit(st, Enter)] + Trail(c, st1, thn);
    assert Trail(c, st, code) == front + turn + arm + end;
    var st5 := Compile(c, st, code).value;
    hide Compile, Trail;
    assert front + turn + arm + end == front + (turn + (arm + end));
    PeaksJoin(st, st1, st2, [Visit(st, Enter)], Trail(c, st1, thn));
    PeaksJoin(st, st2, st5, front, turn + (arm + end));
  }

  lemma Grouped(c: Context, st: State, st1: State, body: Code, next: Code)
    ensures var r := Compile(c, st1, body);
            [Visit(st, Enter)] + Trail(c, st1, body) + EndTrail(c, r, next)
            == [Visit(st, Enter)] + (Trail(c, st1, body) + EndTrail(c, r, next))
  {
  }

  lemma NoPeak(st: State)
    ensures Peaks(st, st, [])
  {
  }

  lemma Rises(st: State, st': State)
    requires StackStep(st, st')
    ensures st.highwater <= st'.highwater
  {
  }

  lemma EnterPeak(st: State, st1: State, rt: ResultType)
    requires StackOk(st) && Entered(st, st1, rt)
    ensures Peaks(st, st1, [Visit(st, Enter)])
  {
    OneStep(st, st1, Enter);
  }

  /** The step into a frame, its body, the `end`, and what follows. */
  lemma {:induction false} BodyPeak(
    c: Context, base: State, st: State, st1: State, rt: ResultType, whole: Code, body: Code, next: Code, step: Step)
    requires StackOk(base) && StackOk(st) && base.highwater == st.highwater && Entered(base, st1, rt)
    requires body < whole && next < whole
    requires Compile(c, st1, body).Ok? && ExitBlock(c, Compile(c, st1, body).value).Ok?
    requires Compile(c, ExitBlock(c, Compile(c, st1, body).value).value, next).Ok?
    ensures var t := [Visit(st, step)] + (Trail(c, st1, body) + EndTrail(c, Compile(c, st1, body), next));
            Peaks(st, Compile(c, ExitBlock(c, Compile(c, st1, body).value).value, next).value, t)
    decreases whole, 0
  {
    hide StackOk, StackStep, ExitBlock, Compile, Peaks, Height, Trail;
    EnteredOk(base, st1, rt);
    CodePeak(c, st1, body);
    CompileOk(c, st1, body);
    var st2 := Compile(c, st1, body).value;
    ExitOk(c, base, st1, st2, rt);
    ExitPeak(c, st2);
    var st3 := ExitBlock(c, st2).value;
    CodePeak(c, st3, next);
    var st4 := Compile(c, st3, next).value;
    OneStep(st, st1, step);
    hide Entered;
    PeaksJoin(st2, st3, st4, [Visit(st2, Leave)], Trail(c, st3, next));
    assert EndTrail(c, Compile(c, st1, body), next) == [Visit(st2, Leave)] + Trail(c, st3, next);
    PeaksJoin(st1, st2, st4, Trail(c, st1, body), EndTrail(c, Compile(c, st1, body), next));
    PeaksJoin(st, st1, st4, [Visit(st, step)], Trail(c, st1, body) + EndTrail(c, Compile(c, st1, body), next));
  }

  // ----- function bodies -----

  lemma FinishRoom(c: Context, st: State, lo: nat)
    requires StackOk(st) && ChainsOk(st, lo) && |st.frames| == 1
    ensures var r := Finish(c, st);
            && (r.Ok? ==> |st.code| + 1 <= AllWords(c) && r.value.highwater == st.highwater)
            && (r.Err? && |st.code| + 1 <= AllWords(c) ==> !Limit(r.error))
  {
    hide DropFrame, Backpatch, Height;
    FitsOpen(st);
    DropRoom(st);
    assert FrameOk(st, 0, lo);
    if DropFrame(st).Ok? { DropFrameValues(st); }
  }

  /** Two header words, the locals and the operands: a frame whose length fits 16 bits at every step. */
  predicate FrameRoom(c: Context, t: seq<Visit>) {
    forall i :: 0 <= i < |t| ==> 2 + WordLen(GroupTypes(c.groups)) + Height(t[i].st.values) <= 0xFFFF
  }

  /** All the room a body needs. */
  predicate FuncRoom(c: Context, code: seq<Word>, body: Code) {
    && |code| + Words(body) + 1 <= AllWords(c)
    && 1 + Nesting(body) <= c.options.maxFrames
    && AllRoom(c, FuncTrail(c, code, body))
    && FrameRoom(c, FuncTrail(c, code, body))
  }

  /** The steps of a compiled body: the high-water mark is the greatest height met. */
  lemma FuncPeak(c: Context, code: seq<Word>, body: Code)
    requires Compile(c, Start(c, code), body).Ok?
    ensures var h := Compile(c, Start(c, code), body).value.highwater;
            Below(FuncTrail(c, code, body), h) && Attains(FuncTrail(c, code, body), h)
  {
    hide Compile, Height;
    var st0 := Start(c, code);
    StartHeight(c, code);
    CodePeak(c, st0, body);
    CompileOk(c, st0, body);
    var st := Compile(c, st0, body).value;
    CoversHeight(st);
    var (t, last) := (Trail(c, st0, body), [Visit(st, Stop)]);
    PeakJoin(t, last, st.highwater);
    if st.highwater == 0 {
      if t == [] { assert Height(last[0].st.values) == 0; } else { assert Height(t[0].st.values) == 0; }
    } else if Height(st.values) == st.highwater {
      assert Height(last[0].st.values) == st.highwater;
    }
  }

  lemma StartHeight(c: Context, code: seq<Word>)
    ensures StackOk(Start(c, code)) && Height(Start(c, code).values) == 0
  {
  }

  lemma CoversHeight(st: State)
    requires StackOk(st)
    ensures Height(st.values) <= st.highwater
  {
  }

  /** The usage that is reported is the greatest operand height met in compiling the body: it covers every
      height, and one of them attains it. */
  lemma UsageExactly(c: Context, code: seq<Word>, body: Code)
    requires OptionsOk(c.options) && WordLen(c.sig.params) <= 0xFF && |code| < 0x8000_0000
    requires CompileFunc(c, code, body).Ok?
    ensures var u := CompileFunc(c, code, body).value.usage;
            Below(FuncTrail(c, code, body), u) && Attains(FuncTrail(c, code, body), u)
  {
    hide Ready, Compile, Finish, Sound;
    FuncPeak(c, code, body);
    StartReady(c, code);
    CodeReady(c, Start(c, code), body, [c.sig.result], |code|);
    var st := Compile(c, Start(c, code), body).value;
    InnerSame(Start(c, code), st);
    ReadyParts(c, st, [c.sig.result], |code|);
    FinishRoom(c, st, |code|);
  }

  lemma FrameRoomExactly(c: Context, t: seq<Visit>, h: nat)
    requires Below(t, h) && Attains(t, h)
    ensures FrameRoom(c, t) <==> 2 + WordLen(GroupTypes(c.groups)) + h <= 0xFFFF
  {
    hide Height, GroupTypes;
  }

  lemma SomeStep(c: Context, st: State, code: Code)
    requires Compile(c, st, code).Err?
    ensures Trail(c, st, code) != []
  {
    hide TrailFrom, EndTrail, EnterIf, Else, CompileOp, Turning;
  }

  lemma LocalsFit(c: Context, t: seq<Visit>)
    requires t != [] && FrameRoom(c, t)
    ensures WordLen(GroupTypes(c.groups)) <= 0xFFFF
  {
    hide GroupTypes, Height;
    assert Height(t[0].st.values) >= 0;
  }

  /** The compiler accepts a body exactly when it is valid and there is room for it. */
  lemma AcceptsExactly(c: Context, code: seq<Word>, body: Code)
    requires OptionsOk(c.options) && WordLen(c.sig.params) <= 0xFF && |code| < 0x8000_0000
    ensures CompileFunc(c, code, body).Ok? <==> FuncValid(c, body) && FuncRoom(c, code, body)
  {
    hide Compile, Finish, FuncValid, Trail, Words, Nesting, AllRoom, FrameRoom, Ready, Limit;
    var st0 := Start(c, code);
    RefusedForLimit(c, code, body);
    StartReady(c, code);
    CodeRoom(c, st0, body, [c.sig.result], |code|);
    var r := Compile(c, st0, body);
    if r.Ok? {
      var st := r.value;
      FuncPeak(c, code, body);
      FrameRoomExactly(c, FuncTrail(c, code, body), st.highwater);
      AllRoomJoin(c, Trail(c, st0, body), [Visit(st, Stop)]);
      AllRoomOne(c, Visit(st, Stop));
      CodeReady(c, st0, body, [c.sig.result], |code|);
      InnerSame(st0, st);
      ReadyParts(c, st, [c.sig.result], |code|);
      FinishRoom(c, st, |code|);
    } else {
      assert FuncTrail(c, code, body) == Trail(c, st0, body);
      SomeStep(c, st0, body);
      if FrameRoom(c, Trail(c, st0, body)) { LocalsFit(c, Trail(c, st0, body)); }
    }
  }

  // ----- which error -----

  /** Errors about the frame as a whole. */
  predicate FrameError(e: Error) { e == TooManyLocals || e == StackTooLarge }

  lemma {:induction false} PatchErrors(o: Options, code: seq<Word>, a: int, pc: int, n: nat)
    ensures var r := Backpatch(o, code, a, pc, n); r.Err? ==> !FrameError(r.error)
    decreases if a < 0 then 0 else a + 1
  {
    hide Slot, Jump, WithJump, FitsJump, SetSlot;
    if SlotIn(code, a) && JumpOffset(a, pc).Ok? && Jump(Slot(code, a)) < 0 {
      var code1 := SetSlot(code, a, WithJump(Slot(code, a), JumpOffset(a, pc).value));
      PatchErrors(o, code1, a + Jump(Slot(code, a)), pc, n + 1);
    }
  }

  lemma {:induction false} CutErrors(o: Options, code: seq<Word>, head: int, a: int, prev: int, pc: int, n: nat)
    ensures var r := SplitTail(o, code, head, a, prev, pc, n); r.Err? ==> !FrameError(r.error)
    decreases if a < 0 then 0 else a + 1
  {
    hide Slot, Jump, WithJump, FitsJump, SetSlot;
    if SlotIn(code, a) && Jump(Slot(code, a)) < 0 {
      CutErrors(o, code, head, a + Jump(Slot(code, a)), a, pc, n + 1);
    }
  }

  lemma CloseErrors(c: Context, st: State)
    ensures PopControl(c, st).Err? ==> !FrameError(PopControl(c, st).error)
    ensures ExitBlock(c, st).Err? ==> !FrameError(ExitBlock(c, st).error)
    ensures Finish(c, st).Err? ==> !FrameError(Finish(c, st).error)
  {
    hide PopResult, Backpatch, Height, Imm8;
    if st.frames != [] {
      var f := Innermost(st);
      ResultErrors(st, f.out);
      if DropFrame(st).Ok? {
        var code := DropFrame(st).value.code;
        PatchErrors(c.options, code, f.target, |code|, 0);
      }
    }
  }

  lemma ElseErrors(c: Context, st: State)
    ensures Else(c, st).Err? ==> !FrameError(Else(c, st).error)
  {
    hide PopResult, SplitTail, Height, Imm8, WriteLabelTarget;
    var e := Emit(c, st, [Imm8(BR, 0)]);
    if e.Ok? {
      SlotErrors(c, e.value, 0);
      if WriteLabelTarget(c, e.value, 0).Ok? {
        var st2 := WriteLabelTarget(c, e.value, 0).value.0;
        LabelTable(c, e.value, 0);
        var f := Innermost(st2);
        ResultErrors(st2, f.out);
        if DropFrame(st2).Ok? {
          var code := DropFrame(st2).value.code;
          CutErrors(c.options, code, f.target, f.target, SENTINEL, |code|, 0);
        }
      }
    }
  }

  lemma EnterErrors(c: Context, st: State, rt: ResultType)
    ensures EnterBlock(c, st, rt).Err? ==> !FrameError(EnterBlock(c, st, rt).error)
    ensures EnterLoop(c, st, rt).Err? ==> !FrameError(EnterLoop(c, st, rt).error)
    ensures EnterIf(c, st, rt).Err? ==> !FrameError(EnterIf(c, st, rt).error)
  {
    hide PopExpect, Imm8, Pack;
    TypeErrors(st, Known(ValType.I32));
  }

  lemma {:induction false} CodeErrors(c: Context, st: State, code: Code)
    requires WordLen(c.sig.params) <= 0xFF
    ensures var r := Compile(c, st, code); r.Err? ==> !FrameError(r.error)
    decreases code, 1
  {
    hide EnterBlock, EnterLoop, EnterIf, ExitBlock, Else, CompileOp;
    match code
    case Done =>
    case Plain(op, next) =>
      OpErrors(c, st, op);
      if CompileOp(c, st, op).Ok? { CodeErrors(c, CompileOp(c, st, op).value, next); }
    case Block(rt, body, next) =>
      EnterErrors(c, st, rt);
      if EnterBlock(c, st, rt).Ok? { BodyErrors(c, EnterBlock(c, st, rt).value, code, body, next); }
    case Loop(rt, body, next) =>
      EnterErrors(c, st, rt);
      if EnterLoop(c, st, rt).Ok? { BodyErrors(c, EnterLoop(c, st, rt).value, code, body, next); }
    case If(rt, thn, next) =>
      EnterErrors(c, st, rt);
      if EnterIf(c, st, rt).Ok? { BodyErrors(c, EnterIf(c, st, rt).value, code, thn, next); }
    case IfElse(rt, thn, els, next) =>
      EnterErrors(c, st, rt);
      if EnterIf(c, st, rt).Ok? {
        var st1 := EnterIf(c, st, rt).value;
        CodeErrors(c, st1, thn);
        if Compile(c, st1, thn).Ok? {
          var st2 := Compile(c, st1, thn).value;
          ElseErrors(c, st2);
          if Else(c, st2).Ok? { BodyErrors(c, Else(c, st2).value, code, els, next); }
        }
      }
  }

  lemma {:induction false} BodyErrors(c: Context, st1: State, whole: Code, body: Code, next: Code)
    requires WordLen(c.sig.params) <= 0xFF && body < whole && next < whole
    ensures var r := (var st2 :- Compile(c, st1, body);
                      var st3 :- ExitBlock(c, st2);
                      Compile(c, st3, next));
            r.Err? ==> !FrameError(r.error)
    decreases whole, 0
  {
    hide Compile, ExitBlock;
    CodeErrors(c, st1, body);
    if Compile(c, st1, body).Ok? {
      var st2 := Compile(c, st1, body).value;
      CloseErrors(c, st2);
      if ExitBlock(c, st2).Ok? { CodeErrors(c, ExitBlock(c, st2).value, next); }
    }
  }

  /** The two errors about the frame as a whole: the locals alone pass 16 bits; or the code compiles, and at
      some step the header, the locals and the operands pass 16 bits. */
  lemma FrameErrorsExactly(c: Context, code: seq<Word>, body: Code)
    requires OptionsOk(c.options) && WordLen(c.sig.params) <= 0xFF && |code| < 0x8000_0000
    ensures var r := CompileFunc(c, code, body);
            var locals := WordLen(GroupTypes(c.groups));
            var st := Compile(c, Start(c, code), body);
            && (r == Result.Err(TooManyLocals) <==> locals > 0xFFFF)
            && (r == Result.Err(StackTooLarge) <==>
                  && locals <= 0xFFFF && st.Ok? && Finish(c, st.value).Ok?
                  && !FrameRoom(c, FuncTrail(c, code, body)))
  {
    hide Ready, Compile, Finish, Sound, FrameRoom, GroupTypes, FuncTrail;
    CodeErrors(c, Start(c, code), body);
    if Compile(c, Start(c, code), body).Ok? {
      var st := Compile(c, Start(c, code), body).value;
      CloseErrors(c, st);
      FuncPeak(c, code, body);
      FrameRoomExactly(c, FuncTrail(c, code, body), st.highwater);
      StartReady(c, code);
      CodeReady(c, Start(c, code), body, [c.sig.result], |code|);
      InnerSame(Start(c, code), st);
      ReadyParts(c, st, [c.sig.result], |code|);
      FinishRoom(c, st, |code|);
    }
  }

  // ----- declared functions -----

  /** The groups of locals as they are declared: counts of 16 bits. */
  predicate GroupsAre(locals: seq<(nat, ValType)>, groups: seq<LocalGroup>) {
    && |groups| == |locals|
    && forall i :: 0 <= i < |locals| ==> locals[i].0 == groups[i].count && locals[i].1 == groups[i].ty
  }

  lemma {:induction false} GroupsExactly(locals: seq<(nat, ValType)>, groups: seq<LocalGroup>)
    ensures Bodies.Groups(locals) == Result.Ok(groups) <==> GroupsAre(locals, groups)
    decreases |locals|
  {
    if locals != [] {
      if groups != [] {
        GroupsExactly(locals[1..], groups[1..]);
        assert groups == [groups[0]] + groups[1..];
        if GroupsAre(locals[1..], groups[1..]) && locals[0].0 == groups[0].count && locals[0].1 == groups[0].ty {
          forall i | 0 <= i < |locals| ensures locals[i].0 == groups[i].count && locals[i].1 == groups[i].ty {
            if i > 0 { assert locals[1..][i - 1] == locals[i] && groups[1..][i - 1] == groups[i]; }
          }
        }
      }
      if Bodies.Groups(locals) == Result.Ok(groups) {
        assert groups[1..] == Bodies.Groups(locals[1..]).value;
      }
    }
  }

  /** The declared function is the body `body` over the groups `groups`, valid and with room. */
  ghost predicate AcceptedAs(
    index: seq<FuncEntry>, options: Options, code: seq<Word>, d: Bodies.Declared, groups: seq<LocalGroup>, body: Code)
  {
    && GroupsAre(d.locals, groups) && d.tokens == Bodies.Stream(body, [Bodies.End])
    && var c := Context(d.sig, groups, index, options); FuncValid(c, body) && FuncRoom(c, code, body)
  }

  /** Reading a declared function succeeds exactly when its instructions are those of a structured body that
      is valid and has room. */
  lemma DeclaredAccepted(index: seq<FuncEntry>, options: Options, code: seq<Word>, d: Bodies.Declared)
    requires OptionsOk(options) && WordLen(d.sig.params) <= 0xFF && |code| < 0x8000_0000
    ensures Bodies.ReadDeclared(index, options, code, d).Ok? <==>
              exists groups, body :: AcceptedAs(index, options, code, d, groups, body)
  {
    hide CompileFunc, FuncValid, FuncRoom, Bodies.ReadFunction, Bodies.Stream, GroupsAre, Bodies.Groups;
    if Bodies.ReadDeclared(index, options, code, d).Ok? {
      Bodies.DeclaredCompiles(index, options, code, d);
      var f := Bodies.ReadDeclared(index, options, code, d).value;
      GroupsExactly(d.locals, f.groups);
      AcceptsExactly(Context(d.sig, f.groups, index, options), code, f.body);
      assert AcceptedAs(index, options, code, d, f.groups, f.body);
    }
    if groups, body :| AcceptedAs(index, options, code, d, groups, body) {
      var c := Context(d.sig, groups, index, options);
      GroupsExactly(d.locals, groups);
      AcceptsExactly(c, code, body);
      Bodies.StructuredIsRead(c, code, body, []);
      assert [Bodies.End] + [] == [Bodies.End];
    }
  }
}
