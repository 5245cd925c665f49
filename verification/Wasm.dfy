/** The modelled WebAssembly subset and its structured semantics (sections 4.4.4 to 4.4.6 and
    4.4.8 of the WebAssembly Core Specification 1.0).

    Two things are added to the specification's rules. The word budget of the interpreter's stack
    is counted, because a call that does not fit must trap; and the calls made to host functions
    are recorded, because they are what an embedding can observe. */
module Wasm {
  import opened Values
  import Ir

  /** Instructions without a body. Indices are as they appear in the binary. */
  datatype Op =
    | Nop
    | Unreachable
    | Const(value: Value)
    | Num(op: Ir.NumOp)
    | Drop
    | Select
    | LocalGet(x: nat)
    | LocalSet(x: nat)
    | LocalTee(x: nat)
    | Br(l: nat)
    | BrIf(l: nat)
    | BrTable(ls: seq<nat>, default: nat)
    | Return
    | Call(x: nat)

  type ResultType = Option<ValType>

  /** An instruction sequence. */
  datatype Code =
    | Done
    | Plain(op: Op, next: Code)
    | Block(rt: ResultType, body: Code, next: Code)
    | Loop(rt: ResultType, body: Code, next: Code)
    | If(rt: ResultType, thn: Code, next: Code)
    | IfElse(rt: ResultType, thn: Code, els: Code, next: Code)

  function ResultCount(rt: ResultType): nat { if rt.None? then 0 else 1 }

  function ResultTypes(rt: ResultType): seq<ValType> { if rt.None? then [] else [rt.value] }

  /** The source's `ResultType` in words, as stored in slots and return instructions. */
  function ResultWords(rt: ResultType): nat { if rt.None? then 0 else Width(rt.value) }

  // ----- modules -----

  datatype FuncSig = FuncSig(params: seq<ValType>, result: ResultType)

  /** Where an entry of a module's function index space leads (`Ref`). */
  datatype FuncRef =
    | Local(index: Word)
    | Extern(module_: U8, index: Word)
    | Host(module_: U8, index: Word)

  datatype FuncEntry = FuncEntry(ref: FuncRef, sig: FuncSig)

  datatype LocalGroup = LocalGroup(count: Word, ty: ValType)

  /** A loaded function: `entry` and `usage` are what the compiler found. */
  datatype Func = Func(sig: FuncSig, groups: seq<LocalGroup>, body: Code, entry: nat, usage: nat)
  {
    function ParamWords(): nat { WordLen(sig.params) }

    function LocalWords(): nat { WordLen(GroupTypes(groups)) }

    /** `required_stack_words`. */
    function RequiredWords(): nat { usage + 2 + LocalWords() }
  }

  function Repeat(n: nat, t: ValType): (ts: seq<ValType>)
    ensures |ts| == n
  {
    if n == 0 then [] else Repeat(n - 1, t) + [t]
  }

  /** The declared locals, expanded. */
  function GroupTypes(groups: seq<LocalGroup>): seq<ValType> {
    if groups == [] then [] else Repeat(groups[0].count, groups[0].ty) + GroupTypes(groups[1..])
  }

  datatype Module = Module(functions: seq<Func>, index: seq<FuncEntry>)

  datatype HostCall = HostCall(module_: nat, index: nat, args: seq<Value>)

  /** What comes of a host call: an answer, a pause that the embedding ends by resuming with
      `result`, or a trap. */
  datatype HostReply = Continue(result: Option<Value>) | Pause(result: Option<Value>) | HostTrap

  /** All loaded modules, the host functions' signatures and behaviour, and the size of the
      interpreter's stack. A host's answer may depend on everything it was asked before. */
  datatype Store = Store(
    modules: seq<Module>,
    hosts: seq<seq<FuncSig>>,
    reply: seq<HostCall> -> HostReply,
    stackWords: nat)

  predicate RefOk(s: Store, m: nat, e: FuncEntry)
    requires m < |s.modules|
  {
    match e.ref
    case Local(i) => i < |s.modules[m].functions| && s.modules[m].functions[i].sig == e.sig
    case Extern(k, i) => k < |s.modules| && i < |s.modules[k].functions| && s.modules[k].functions[i].sig == e.sig
    case Host(h, i) => h < |s.hosts| && i < |s.hosts[h]| && s.hosts[h][i] == e.sig
  }

  /** Every function index resolves to an entry of the declared type, and the store holds at most
      256 modules. */
  predicate Linked(s: Store) {
    && |s.modules| <= 0x100
    && forall m, x :: 0 <= m < |s.modules| && 0 <= x < |s.modules[m].index| ==> RefOk(s, m, s.modules[m].index[x])
  }

  function ReplyType(r: HostReply): ResultType {
    if !r.HostTrap? && r.result.Some? then Some(r.result.value.Type()) else None
  }

  /** Host functions answer, and pauses end, with a value of the declared type: the engine panics on
      a wrong answer and refuses a wrong resumption. */
  ghost predicate HostsTyped(s: Store) {
    forall trace: seq<HostCall> :: HostTyped(s, trace)
  }

  ghost predicate HostTyped(s: Store, trace: seq<HostCall>) {
    trace != [] && !s.reply(trace).HostTrap? ==>
      var c := trace[|trace| - 1];
      c.module_ < |s.hosts| && c.index < |s.hosts[c.module_]| ==>
        ReplyType(s.reply(trace)) == s.hosts[c.module_][c.index].result
  }

  // ----- semantics -----

  datatype TrapReason = Unreachable | DivideByZero | StackOverflow | Host | MalformedIr

  datatype Config = Config(locals: seq<Value>, stack: seq<Value>, trace: seq<HostCall>)

  /** What running a sequence comes to. `Stuck` marks an ill-typed program. */
  datatype Outcome =
    | Normal(c: Config)
    | Branch(l: nat, c: Config)
    | Returned(c: Config)
    | Trap(reason: TrapReason, trace: seq<HostCall>)
    | Timeout(trace: seq<HostCall>)
    | Stuck

  /** The topmost `n` values. */
  function Top<T>(s: seq<T>, n: nat): seq<T>
    requires n <= |s|
  {
    s[|s| - n..]
  }

  function NumParams(op: Ir.NumOp): seq<ValType> {
    match op
    case I32Eqz => [ValType.I32]
    case I64Eqz => [ValType.I64]
    case I64Eq => [ValType.I64, ValType.I64]
    case I32Add => [ValType.I32, ValType.I32]
    case I32DivU => [ValType.I32, ValType.I32]
    case I64Add => [ValType.I64, ValType.I64]
    case I32WrapI64 => [ValType.I64]
    case I64ExtendI32U => [ValType.I32]
  }

  function NumResult(op: Ir.NumOp): ValType {
    match op
    case I64Add => ValType.I64
    case I64ExtendI32U => ValType.I64
    case _ => ValType.I32
  }

  function Bool32(b: bool): Value { if b then Value.I32(1) else Value.I32(0) }

  /** Section 4.3.2; `None` is the trap on division by zero. */
  function EvalNum(op: Ir.NumOp, args: seq<Value>): (r: Option<Value>)
    requires TypesOf(args) == NumParams(op)
    ensures r.Some? ==> r.value.Type() == NumResult(op)
  {
    assert forall i :: 0 <= i < |args| ==> args[i].Type() == NumParams(op)[i];
    match op
    case I32Eqz => Some(Bool32(args[0].word == 0))
    case I64Eqz => Some(Bool32(args[0].dword == 0))
    case I64Eq => Some(Bool32(args[0].dword == args[1].dword))
    case I32Add => Some(Value.I32((args[0].word + args[1].word) % 0x1_0000_0000))
    case I32DivU =>
      if args[1].word == 0 then None
      else Some(Value.I32(DivU(args[0].word, args[1].word)))
    case I64Add => Some(Value.I64((args[0].dword + args[1].dword) % 0x1_0000_0000_0000_0000))
    case I32WrapI64 => Some(Value.I32(Low32(args[0].dword)))
    case I64ExtendI32U => Some(Value.I64(args[0].word))
  }

  /** The quotient of two unsigned numbers. */
  function DivU(a: U32, b: U32): (q: U32)
    requires b != 0
    ensures 0 <= a - b * q < b
  {
    DivShrinks(a, b);
    a / b
  }

  lemma DivShrinks(a: nat, b: nat)
    requires b != 0
    ensures 0 <= a / b <= a && 0 <= a - b * (a / b) < b
  {
    var q := a / b;
    assert a == b * q + a % b;
    MulNonNegative(b - 1, q);
    assert b * q == (b - 1) * q + q;
  }

  /** There is only one quotient. */
  lemma OneQuotient(a: int, b: int, q: int, q': int)
    requires b > 0 && 0 <= a - b * q < b && 0 <= a - b * q' < b
    ensures q == q'
  {
    assert b * q - b * q' == b * (q - q');
    Multiples(b, q - q');
  }

  lemma Multiples(b: int, n: int)
    requires b > 0
    ensures n >= 1 ==> b * n >= b
    ensures n <= -1 ==> b * n <= -b
  {
    if n >= 1 { MulNonNegative(b, n - 1); }
    if n <= -1 { MulNonNegative(b, -1 - n); }
  }

  lemma MulNonNegative(x: nat, y: int)
    requires y >= 0
    ensures x * y >= 0
  {
  }

  function Push(c: Config, v: Value): Config { c.(stack := c.stack + [v]) }

  function Pop(c: Config): Config
    requires c.stack != []
  {
    c.(stack := c.stack[..|c.stack| - 1])
  }

  function Last(c: Config): Value
    requires c.stack != []
  {
    c.stack[|c.stack| - 1]
  }

  /** An i32 is on top. */
  predicate HasI32(c: Config) { c.stack != [] && Last(c).I32? }

  function ExecNum(op: Ir.NumOp, c: Config): Outcome {
    var n := |NumParams(op)|;
    if n > |c.stack| || TypesOf(Top(c.stack, n)) != NumParams(op) then Stuck
    else
      match EvalNum(op, Top(c.stack, n))
      case Some(v) => Normal(c.(stack := c.stack[..|c.stack| - n] + [v]))
      case None => Trap(DivideByZero, c.trace)
  }

  function ExecSelect(c: Config): Outcome {
    if !HasI32(c) || |c.stack| < 3 then Stuck
    else
      var n := |c.stack|;
      var (v1, v2) := (c.stack[n - 3], c.stack[n - 2]);
      if v1.Type() != v2.Type() then Stuck
      else Normal(c.(stack := c.stack[..n - 3] + [if Last(c).word != 0 then v1 else v2]))
  }

  function SetLocal(c: Config, x: nat, v: Value): Outcome {
    if x >= |c.locals| || v.Type() != c.locals[x].Type() then Stuck
    else Normal(c.(locals := c.locals[x := v]))
  }

  /** Instructions other than calls. */
  function ExecOp(op: Op, c: Config): Outcome {
    match op
    case Nop => Normal(c)
    case Unreachable => Trap(TrapReason.Unreachable, c.trace)
    case Const(v) => Normal(Push(c, v))
    case Num(o) => ExecNum(o, c)
    case Drop => if c.stack == [] then Stuck else Normal(Pop(c))
    case Select => ExecSelect(c)
    case LocalGet(x) => if x >= |c.locals| then Stuck else Normal(Push(c, c.locals[x]))
    case LocalSet(x) => if c.stack == [] then Stuck else SetLocal(Pop(c), x, Last(c))
    case LocalTee(x) => if c.stack == [] then Stuck else SetLocal(c, x, Last(c))
    case Br(l) => Branch(l, c)
    case BrIf(l) =>
      if !HasI32(c) then Stuck
      else if Last(c).word != 0 then Branch(l, Pop(c))
      else Normal(Pop(c))
    case BrTable(ls, d) =>
      if !HasI32(c) then Stuck
      else if Last(c).word < |ls| then Branch(ls[Last(c).word], Pop(c))
      else Branch(d, Pop(c))
    case Return => Returned(c)
    case Call(_) => Stuck
  }

  function StackWords(c: Config): nat { |Flat(c.stack)| }

  /** Entering a label: a fresh operand stack. */
  function Enter(c: Config): Config { c.(stack := []) }

  /** Leaving a label of the given arity, over the operands outside it. */
  function Leave(o: Outcome, outer: seq<Value>, arity: nat): Outcome {
    match o
    case Normal(c) => Normal(c.(stack := outer + c.stack))
    case Branch(l, c) =>
      if l > 0 then Branch(l - 1, c)
      else if |c.stack| < arity then Stuck
      else Normal(c.(stack := outer + Top(c.stack, arity)))
    case _ => o
  }

  /** Leaving a function: its results replace its arguments. */
  function LeaveFunc(o: Outcome, caller: Config, outer: seq<Value>, arity: nat): Outcome {
    match o
    case Trap(_, _) => o
    case Timeout(_) => o
    case Stuck => o
    case _ =>
      if (o.Branch? && o.l > 0) || |o.c.stack| < arity then Stuck
      else Normal(Config(caller.locals, outer + Top(o.c.stack, arity), o.c.trace))
  }

  function Zeros(ts: seq<ValType>): (vs: seq<Value>)
    ensures TypesOf(vs) == ts
  {
    seq(|ts|, i requires 0 <= i < |ts| => Zero(ts[i]))
  }

  function OptionSeq<T>(o: Option<T>): seq<T> { if o.None? then [] else [o.value] }

  function ExecHost(s: Store, h: nat, i: nat, sig: FuncSig, c: Config): Outcome {
    var n := |sig.params|;
    if n > |c.stack| || TypesOf(Top(c.stack, n)) != sig.params then Stuck
    else
      var trace := c.trace + [HostCall(h, i, Top(c.stack, n))];
      var reply := s.reply(trace);
      if reply.HostTrap? then Trap(TrapReason.Host, trace)
      else Normal(Config(c.locals, c.stack[..|c.stack| - n] + OptionSeq(reply.result), trace))
  }

  /** Call function `i` of module `m`; `below` words lie under the caller's operands. */
  function ExecFunc(s: Store, m: nat, i: nat, c: Config, below: nat, fuel: nat): Outcome
    decreases fuel, 2
  {
    if m >= |s.modules| || i >= |s.modules[m].functions| then Stuck
    else
      var f := s.modules[m].functions[i];
      var n := |f.sig.params|;
      if n > |c.stack| || TypesOf(Top(c.stack, n)) != f.sig.params then Stuck
      else
        var sp := below + StackWords(c);
        if s.stackWords < sp + f.RequiredWords() then Trap(StackOverflow, c.trace)
        else
          var start := Config(Top(c.stack, n) + Zeros(GroupTypes(f.groups)), [], c.trace);
          LeaveFunc(Exec(s, m, f.body, start, sp + 2 + f.LocalWords(), fuel),
                    c, c.stack[..|c.stack| - n], ResultCount(f.sig.result))
  }

  /** A call instruction. Each call spends one unit of fuel. */
  function ExecCall(s: Store, m: nat, x: nat, c: Config, below: nat, fuel: nat): Outcome
    decreases fuel, 0
  {
    if m >= |s.modules| || x >= |s.modules[m].index| then Stuck
    else
      var e := s.modules[m].index[x];
      match e.ref
      case Host(h, i) => ExecHost(s, h, i, e.sig, c)
      case Local(i) => if fuel == 0 then Timeout(c.trace) else ExecFunc(s, m, i, c, below, fuel - 1)
      case Extern(k, i) => if fuel == 0 then Timeout(c.trace) else ExecFunc(s, k, i, c, below, fuel - 1)
  }

  /** Run a sequence in module `m`, over `below` stack words. Each backward branch spends one
      unit of fuel. */
  function Exec(s: Store, m: nat, code: Code, c: Config, below: nat, fuel: nat): Outcome
    decreases fuel, 1, code
  {
    match code
    case Done => Normal(c)
    case Plain(op, next) =>
      var o := if op.Call? then ExecCall(s, m, op.x, c, below, fuel) else ExecOp(op, c);
      if o.Normal? then Exec(s, m, next, o.c, below, fuel) else o
    case Block(rt, body, next) =>
      var o := Leave(Exec(s, m, body, Enter(c), below + StackWords(c), fuel), c.stack, ResultCount(rt));
      if o.Normal? then Exec(s, m, next, o.c, below, fuel) else o
    case Loop(rt, body, next) =>
      var o := Exec(s, m, body, Enter(c), below + StackWords(c), fuel);
      if o.Branch? && o.l == 0 then
        if fuel == 0 then Timeout(o.c.trace)
        else Exec(s, m, code, o.c.(stack := c.stack), below, fuel - 1)
      else
        var o1 := Leave(o, c.stack, ResultCount(rt));
        if o1.Normal? then Exec(s, m, next, o1.c, below, fuel) else o1
    case If(rt, thn, next) =>
      if !HasI32(c) then Stuck
      else
        var c1 := Pop(c);
        var o :=
          if Last(c).word == 0 then Normal(c1)
          else Leave(Exec(s, m, thn, Enter(c1), below + StackWords(c1), fuel), c1.stack, ResultCount(rt));
        if o.Normal? then Exec(s, m, next, o.c, below, fuel) else o
    case IfElse(rt, thn, els, next) =>
      if !HasI32(c) then Stuck
      else
        var c1 := Pop(c);
        var arm := if Last(c).word != 0 then thn else els;
        var o := Leave(Exec(s, m, arm, Enter(c1), below + StackWords(c1), fuel), c1.stack, ResultCount(rt));
        if o.Normal? then Exec(s, m, next, o.c, below, fuel) else o
  }
}
