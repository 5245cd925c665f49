/** The operand height at an address of the code is a function of the address: no two program points
    share one, within a function or across functions. So the address alone tells, in every reachable
    state, which function runs and where the stack pointer is. */
module Heights {
  import opened Values
  import opened Label
  import opened Ir
  import opened Wasm
  import opened Text
  import opened Chains
  import opened Frames
  import opened Extension
  import opened Machine
  import opened Preservation
  import opened Blocks
  import opened Calls
  import opened Safety

  /** Points that lie in a stretch of the code, at most one at each address. */
  predicate Placed(points: set<(int, nat)>, from: int, to: int) {
    && (forall p :: p in points ==> from <= p.0 < to)
    && forall p, q :: p in points && q in points && p.0 == q.0 ==> p == q
  }

  lemma PlacedNone(a: int)
    ensures Placed({}, a, a)
  {
  }

  lemma PlacedOne(p: (int, nat), to: int)
    requires p.0 < to
    ensures Placed({p}, p.0, to)
  {
  }

  lemma PlacedJoin(ps: set<(int, nat)>, qs: set<(int, nat)>, a: int, b: int, c: int)
    requires a <= b <= c && Placed(ps, a, b) && Placed(qs, b, c)
    ensures Placed(ps + qs, a, c)
  {
  }

  // ----- every instruction emits something -----

  lemma ConstGrows(v: Value)
    ensures |ConstWords(v)| >= 1
  {
  }

  lemma BranchGrows(c: Context, st: State, op: Op, lo: nat)
    requires OptionsOk(c.options) && ChainsOk(st, lo) && CompileOp(c, st, op).Ok?
    requires IsBranch(op)
    ensures |CompileOp(c, st, op).value.code| > |st.code|
  {
    hide ChainsOk, Agree, Extends, WriteLabelTarget, TableBranches, Imm8Or16, Imm8, Height;
    if op.BrTable? {
      TableGrows(c, st, op, lo);
    } else {
      var w := Imm8(if op.Br? then BR else BR_IF, 0);
      var st1 := if op.Br? then st else PopType(st, ValType.I32).value;
      ExtendsSame(st, st1, lo);
      ExtendsElim(st, st1, lo);
      var st2 := Emit(c, st1, [w]).value;
      EmitExtends(c, st1, [w], lo);
      ExtendsElim(st1, st2, lo);
      LabelExtends(c, st2, op.l, lo);
    }
  }

  lemma TableGrows(c: Context, st: State, op: Op, lo: nat)
    requires OptionsOk(c.options) && ChainsOk(st, lo) && op.BrTable? && CompileOp(c, st, op).Ok?
    ensures |CompileOp(c, st, op).value.code| > |st.code|
  {
    hide ChainsOk, Agree, Extends, WriteLabelTarget, TableBranches, Imm8Or16, Height;
    var st1 := PopType(st, ValType.I32).value;
    ExtendsSame(st, st1, lo);
    ExtendsElim(st, st1, lo);
    var ws := Imm8Or16(BR_TABLE, |op.ls|);
    var st2 := Emit(c, st1, ws).value;
    EmitExtends(c, st1, ws, lo);
    ExtendsElim(st1, st2, lo);
    TableExtends(c, st2, op.ls, lo);
    var st3 := TableBranches(c, st2, op.ls).value;
    ExtendsElim(st2, st3, lo);
    LabelExtends(c, st3, op.default, lo);
  }

  lemma OpGrows(c: Context, st: State, op: Op, lo: nat)
    requires OptionsOk(c.options) && ChainsOk(st, lo) && CompileOp(c, st, op).Ok? && !op.Nop?
    ensures |CompileOp(c, st, op).value.code| > |st.code|
  {
    hide ChainsOk, Agree, Extends, WriteLabelTarget, Imm8, Height, GetLocal, TypeTag, NumParams, ConstWords;
    if IsBranch(op) {
      BranchGrows(c, st, op, lo);
    } else if op.Num? {
      PopTypesSame(st, NumParams(op.op));
    } else if op.Call? {
      PopTypesSame(st, c.index[op.x].sig.params);
    } else {
      InlineGrows(c, st, op);
    }
  }

  lemma InlineGrows(c: Context, st: State, op: Op)
    requires CompileOp(c, st, op).Ok? && !op.Nop? && !op.Num? && !op.Call? && !IsBranch(op)
    ensures |CompileOp(c, st, op).value.code| > |st.code|
  {
    hide Imm8, Height, GetLocal, TypeTag, ConstWords;
    if op.Const? { ConstGrows(op.value); }
  }

  // ----- structured code -----

  /** All points of compiled code lie in it, each at its own address. */
  lemma {:induction false} PointsPlaced(c: Context, st: State, code: Code, lo: nat)
    requires OptionsOk(c.options) && ChainsOk(st, lo) && Compile(c, st, code).Ok?
    ensures |st.code| <= |Compile(c, st, code).value.code|
    ensures Placed(Points(c, st, code), |st.code|, |Compile(c, st, code).value.code|)
    decreases code, 2
  {
    hide ChainsOk, Placed, CompileOp, EnterBlock, EnterLoop, EnterIf, Else, ExitBlock, Opened, Points, BodyPoints;
    CompileExtends(c, st, code, lo);
    ExtendsElim(st, Compile(c, st, code).value, lo);
    match code
    case Done =>
      PlacedNone(|st.code|);
      DonePoints(c, st);
    case Plain(op, next) => OpPlaced(c, st, code, lo);
    case Block(rt, body, next) =>
      EnterOpens(c, st, rt, lo);
      EnterKeeps(c, st, rt);
      BodyPlaced(c, st, EnterBlock(c, st, rt).value, code, body, next, lo);
      BlockPoints(c, st, code);
    case Loop(rt, body, next) =>
      EnterOpens(c, st, rt, lo);
      EnterKeeps(c, st, rt);
      BodyPlaced(c, st, EnterLoop(c, st, rt).value, code, body, next, lo);
      BlockPoints(c, st, code);
    case If(rt, thn, next) => IfPlaced(c, st, code, lo);
    case IfElse(rt, thn, els, next) => ArmsPlaced(c, st, code, lo);
  }

  lemma DonePoints(c: Context, st: State)
    ensures Points(c, st, Done) == {}
  {
  }

  lemma BlockPoints(c: Context, st: State, code: Code)
    requires code.Block? || code.Loop?
    ensures Points(c, st, code) ==
            BodyPoints(c, if code.Block? then EnterBlock(c, st, code.rt) else EnterLoop(c, st, code.rt), code,
                code.body, code.next)
  {
    hide BodyPoints, EnterBlock, EnterLoop;
  }

  lemma EnterKeeps(c: Context, st: State, rt: ResultType)
    ensures EnterBlock(c, st, rt).Ok? ==> EnterBlock(c, st, rt).value.code == st.code
    ensures EnterLoop(c, st, rt).Ok? ==> EnterLoop(c, st, rt).value.code == st.code
  {
  }

  lemma {:induction false} OpPlaced(c: Context, st: State, code: Code, lo: nat)
    requires OptionsOk(c.options) && ChainsOk(st, lo) && Compile(c, st, code).Ok? && code.Plain?
    ensures Placed(Points(c, st, code), |st.code|, |Compile(c, st, code).value.code|)
    decreases code, 1
  {
    hide ChainsOk, Placed, CompileOp, Height;
    OpExtends(c, st, code.op, lo);
    var st1 := CompileOp(c, st, code.op).value;
    ExtendsElim(st, st1, lo);
    PointsPlaced(c, st1, code.next, lo);
    if code.op.Nop? {
      NopSame(c, st);
      assert Points(c, st, code) == Points(c, st1, code.next);
    } else {
      OpGrows(c, st, code.op, lo);
      PlacedOne(Point(st), |st1.code|);
      PlacedJoin({Point(st)}, Points(c, st1, code.next), |st.code|, |st1.code|, |Compile(c, st, code).value.code|);
    }
  }

  lemma NopSame(c: Context, st: State)
    ensures CompileOp(c, st, Op.Nop) == Result.Ok(st)
  {
  }

  /** A body opened behind `st`, its `end`, and what follows. */
  lemma {:induction false} BodyPlaced(c: Context, st: State, st1: State, whole: Code, body: Code, next: Code, lo: nat)
    requires OptionsOk(c.options) && ChainsOk(st, lo) && Opened(st, st1, lo) && body < whole && next < whole
    requires Compile(c, st1, body).Ok? && ExitBlock(c, Compile(c, st1, body).value).Ok?
    requires Compile(c, ExitBlock(c, Compile(c, st1, body).value).value, next).Ok?
    ensures Placed(BodyPoints(c, Result.Ok(st1), whole, body, next), |st1.code|,
                   |Compile(c, ExitBlock(c, Compile(c, st1, body).value).value, next).value.code|)
    decreases whole, 0
  {
    hide ChainsOk, Placed, Opened, Closed, Extends, ExitBlock, Compile, Points;
    OpenedOk(st, st1, lo);
    CompileBody(c, st, st1, body, lo);
    var st2 := Compile(c, st1, body).value;
    var st3 := ExitBlock(c, st2).value;
    ClosedLength(st2, st3);
    ExtendsElim(st, st3, lo);
    PointsPlaced(c, st1, body, lo);
    PointsPlaced(c, st3, next, lo);
    PlacedJoin(Points(c, st1, body), Points(c, st3, next), |st1.code|, |st3.code|, |Compile(c, st3, next).value.code|);
  }

  lemma {:induction false} IfPlaced(c: Context, st: State, code: Code, lo: nat)
    requires OptionsOk(c.options) && ChainsOk(st, lo) && Compile(c, st, code).Ok? && code.If?
    ensures Placed(Points(c, st, code), |st.code|, |Compile(c, st, code).value.code|)
    decreases code, 1
  {
    hide ChainsOk, Placed, EnterIf, ExitBlock, Opened, BodyPoints, Height, SlotIn;
    EnterIfOpens(c, st, code.rt, lo);
    var st1 := EnterIf(c, st, code.rt).value;
    IfGrows(c, st, code.rt);
    BodyPlaced(c, st, st1, code, code.thn, code.next, lo);
    PlacedOne(Point(st), |st1.code|);
    BodyRange(c, st, st1, code.thn, code.next, lo);
    PlacedJoin({Point(st)}, BodyPoints(c, Result.Ok(st1), code, code.thn, code.next), |st.code|, |st1.code|,
               |Compile(c, st, code).value.code|);
  }

  lemma IfGrows(c: Context, st: State, rt: ResultType)
    requires EnterIf(c, st, rt).Ok?
    ensures |EnterIf(c, st, rt).value.code| == |st.code| + 3
  {
  }

  /** Code only grows through a body and what follows it. */
  lemma BodyRange(c: Context, st: State, st1: State, body: Code, next: Code, lo: nat)
    requires OptionsOk(c.options) && ChainsOk(st, lo) && Opened(st, st1, lo)
    requires Compile(c, st1, body).Ok? && ExitBlock(c, Compile(c, st1, body).value).Ok?
    requires Compile(c, ExitBlock(c, Compile(c, st1, body).value).value, next).Ok?
    ensures |st1.code| <= |Compile(c, ExitBlock(c, Compile(c, st1, body).value).value, next).value.code|
  {
    hide ChainsOk, Opened, Closed, Extends, ExitBlock, Compile;
    CompileBody(c, st, st1, body, lo);
    var st2 := Compile(c, st1, body).value;
    var st3 := ExitBlock(c, st2).value;
    ExtendsElim(st1, st2, lo);
    ClosedLength(st2, st3);
    ExtendsElim(st, st3, lo);
    CompileExtends(c, st3, next, lo);
    ExtendsElim(st3, Compile(c, st3, next).value, lo);
  }

  lemma {:induction false} ArmsPlaced(c: Context, st: State, code: Code, lo: nat)
    requires OptionsOk(c.options) && ChainsOk(st, lo) && Compile(c, st, code).Ok? && code.IfElse?
    ensures Placed(Points(c, st, code), |st.code|, |Compile(c, st, code).value.code|)
    decreases code, 1
  {
    hide ChainsOk, Placed, EnterIf, Else, ExitBlock, Opened, Closed, Extends, BodyPoints, Height, SlotIn;
    EnterIfOpens(c, st, code.rt, lo);
    IfGrows(c, st, code.rt);
    var st1 := EnterIf(c, st, code.rt).value;
    OpenedOk(st, st1, lo);
    CompileArms(c, st, st1, code, code.thn, code.els, lo);
    var st2 := Compile(c, st1, code.thn).value;
    var st3 := Else(c, st2).value;
    var st4 := Compile(c, st3, code.els).value;
    var st5 := ExitBlock(c, st4).value;
    var end := |Compile(c, st5, code.next).value.code|;
    ExtendsElim(st1, st2, lo);
    ElseGrows(c, st2, lo);
    ExtendsElim(st3, st4, lo);
    ClosedLength(st4, st5);
    ExtendsElim(st, st5, lo);
    PointsPlaced(c, st1, code.thn, lo);
    PointsPlaced(c, st3, code.els, lo);
    PointsPlaced(c, st5, code.next, lo);
    PlacedOne(Point(st), |st1.code|);
    PlacedOne(Point(st2), |st3.code|);
    var rest := Points(c, st3, code.els) + Points(c, st5, code.next);
    PlacedJoin(Points(c, st3, code.els), Points(c, st5, code.next), |st3.code|, |st5.code|, end);
    PlacedJoin({Point(st2)}, rest, |st2.code|, |st3.code|, end);
    PlacedJoin(Points(c, st1, code.thn), {Point(st2)} + rest, |st1.code|, |st2.code|, end);
    PlacedJoin({Point(st)}, Points(c, st1, code.thn) + ({Point(st2)} + rest), |st.code|, |st1.code|, end);
    ArmsPoints(c, st, code);
    assert Points(c, st, code) == {Point(st)} + (Points(c, st1, code.thn) + ({Point(st2)} + rest));
  }

  lemma ArmsPoints(c: Context, st: State, code: Code)
    requires code.IfElse? && Compile(c, st, code).Ok?
    ensures var st1 := EnterIf(c, st, code.rt).value;
            var st2 := Compile(c, st1, code.thn).value;
            var st3 := Else(c, st2).value;
            var st5 := ExitBlock(c, Compile(c, st3, code.els).value).value;
            Points(c, st, code) == {Point(st), Point(st2)} + Points(c, st1, code.thn)
                                   + (Points(c, st3, code.els) + Points(c, st5, code.next))
  {
    hide EnterIf, Else, ExitBlock, Point;
  }

  lemma ElseGrows(c: Context, st2: State, lo: nat)
    requires OptionsOk(c.options) && ChainsOk(st2, lo) && Else(c, st2).Ok?
    ensures |Else(c, st2).value.code| == |st2.code| + 3
  {
    hide ChainsOk, Else, Split;
    ElseSplits(c, st2, lo);
    ElseBranchExtends(c, st2, lo);
    SplitLong(ElseBranch(c, st2).value, Else(c, st2).value);
  }

  lemma SplitLong(st: State, st': State)
    requires Split(st, st')
    ensures |st'.code| == |st.code|
  {
  }

  // ----- functions -----

  /** The program points of a loaded function lie in its own code, from its entry to its end, and no
      address has two of them: within the function the address determines the operand words. */
  lemma OneHeight(s: Store, code: seq<Word>, options: Options, m: nat, i: nat)
    requires Loaded(s, code, options) && InStore(s, m, i)
    ensures FuncLoaded(s, code, options, m, i)
    ensures Placed(FuncPoints(s, code, options, m, i), s.modules[m].functions[i].entry, FuncEnd(s, code, options, m, i))
  {
    hide Compile, Points, Placed, Linked, HostsTyped, Height, Finish, FuncsApart;
    var f := s.modules[m].functions[i];
    assert FuncLoaded(s, code, options, m, i);
    var c := Context(f.sig, f.groups, s.modules[m].index, options);
    var st0 := Start(c, code[..f.entry]);
    assert ChainsOk(st0, f.entry);
    hide ChainsOk;
    var st := Compile(c, st0, f.body).value;
    PointsPlaced(c, st0, f.body, f.entry);
    ReturnGrows(c, st0, f.body, f.entry);
    var end := FuncEnd(s, code, options, m, i);
    PlacedOne(Point(st), end);
    PlacedJoin(Points(c, st0, f.body), {Point(st)}, f.entry, |st.code|, end);
  }

  /** `finish` emits the final return behind the body. */
  lemma ReturnGrows(c: Context, st0: State, body: Code, lo: nat)
    requires OptionsOk(c.options) && ChainsOk(st0, lo) && st0 == Start(c, st0.code)
    requires Compile(c, st0, body).Ok? && Finish(c, Compile(c, st0, body).value).Ok?
    ensures |Finish(c, Compile(c, st0, body).value).value.code| == |Compile(c, st0, body).value.code| + 1
  {
    hide Compile, Backpatch, Chain, ChainOk, Height;
    var st := Compile(c, st0, body).value;
    CompileExtends(c, st0, body, lo);
    ExtendsElim(st0, st, lo);
    assert FrameOk(st, 0, lo);
  }

  /** An address is a program point of one function only. */
  lemma OneFunction(
    s: Store, code: seq<Word>, options: Options, m: nat, i: nat, n: nat, j: nat, p: (int, nat), q: (int, nat))
    requires Loaded(s, code, options) && InStore(s, m, i) && InStore(s, n, j)
    requires FuncLoaded(s, code, options, m, i) && FuncLoaded(s, code, options, n, j)
    requires p in FuncPoints(s, code, options, m, i) && q in FuncPoints(s, code, options, n, j) && p.0 == q.0
    ensures m == n && i == j && p == q
  {
    OneHeight(s, code, options, m, i);
    OneHeight(s, code, options, n, j);
    hide FuncPoints, FuncLoaded, FuncEnd, Loaded;
    OwnStretch(s, code, options, m, i, n, j);
  }

  lemma OwnStretch(s: Store, code: seq<Word>, options: Options, m: nat, i: nat, n: nat, j: nat)
    requires Loaded(s, code, options) && InStore(s, m, i) && InStore(s, n, j)
    ensures (m == n && i == j) || FuncsApart(s, code, options, m, i, n, j)
  {
    hide FuncsApart, Linked, HostsTyped, FuncLoaded;
  }

  /** A state of some run of some invocation of the loaded code. */
  ghost predicate Reachable(s: Store, code: seq<Word>, options: Options, m: Mach) {
    exists module_, index, args, n ::
      && Invocable(s, code, options, module_, index, args) && Invoke(s, module_, index, args).Next?
      && Run(s, code, Invoke(s, module_, index, args).m, n) == Next(m)
  }

  /** In every reachable state the code address alone determines which function runs, how many words
      lie above its frame pointer, and so where the stack pointer is: whatever invocation led there. */
  lemma AddressDetermines(s: Store, code: seq<Word>, options: Options, m: Mach, m': Mach)
    requires Reachable(s, code, options, m) && Reachable(s, code, options, m') && m.pc == m'.pc
    ensures m.calls != [] && m'.calls != []
    ensures var (a, a') := (Current(m), Current(m'));
            && m.module_ == a.module_ == a'.module_ == m'.module_ && a.index == a'.index
            && m.fp == a.fp && m'.fp == a'.fp && Runs(s, a) && Runs(s, a')
            && |m.live| - m.fp == |m'.live| - m'.fp
  {
    hide Loaded, FuncPoints, FuncLoaded, Invoke, Run;
    ReachableLocated(s, code, options, m);
    ReachableLocated(s, code, options, m');
    var (a, a') := (Current(m), Current(m'));
    OneFunction(s, code, options, a.module_, a.index, a'.module_, a'.index,
                (m.pc, |m.live| - a.Base()), (m'.pc, |m'.live| - a'.Base()));
  }

  lemma ReachableLocated(s: Store, code: seq<Word>, options: Options, m: Mach)
    requires Reachable(s, code, options, m)
    ensures Loaded(s, code, options) && Located(s, ProgramPoints(s, code, options), m)
  {
    hide Loaded, FuncPoints, FuncLoaded, Invoke, Run, Located, ProgramPoints;
    var module_, index, args, n :|
      && Invocable(s, code, options, module_, index, args) && Invoke(s, module_, index, args).Next?
      && Run(s, code, Invoke(s, module_, index, args).m, n) == Next(m);
    NeverUnsafe(s, code, options, module_, index, args, n);
  }
}
