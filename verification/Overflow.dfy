/** When a call overflows the stack: exactly when the frame it would open, at the greatest height its operands
    reach, does not fit (src/code.rs, `required_stack_words`; src/interpreter.rs, `call_impl` and `invoke`). */
module Overflow {
  import opened Values
  import opened Ir
  import opened Wasm
  import opened Text
  import opened Locals
  import opened Machine
  import opened Calls
  import opened Accepts
  import Engine

  /** The words of the declared locals, type by type. */
  function DeclaredWords(groups: seq<LocalGroup>): nat {
    if groups == [] then 0
    else
      var (g, rest) := (groups[0], DeclaredWords(groups[1..]));
      match g.ty
      case I32 => g.count + rest
      case F32 => g.count + rest
      case I64 => 2 * g.count + rest
      case F64 => 2 * g.count + rest
  }

  lemma GroupWords(g: LocalGroup)
    ensures WordLen(Repeat(g.count, g.ty)) == match g.ty
                                              case I32 => g.count
                                              case F32 => g.count
                                              case I64 => 2 * g.count
                                              case F64 => 2 * g.count
  {
    hide Repeat, WordLen;
    WordLenRepeat(g.count, g.ty);
    assert Width(g.ty) == 1 || Width(g.ty) == 2;
    if Width(g.ty) == 1 { assert g.count * 1 == g.count; } else { assert g.count * 2 == 2 * g.count; }
  }

  lemma {:induction false} DeclaredExactly(groups: seq<LocalGroup>)
    ensures WordLen(GroupTypes(groups)) == DeclaredWords(groups)
  {
    if groups != [] {
      hide WordLen, Repeat;
      var g := groups[0];
      DeclaredExactly(groups[1..]);
      GroupWords(g);
      WordLenConcat(Repeat(g.count, g.ty), GroupTypes(groups[1..]));
    }
  }

  /** A call overflows exactly when its frame, from the header at the caller's top of stack to the last word of
      its operands, ends beyond the stack; otherwise that is the frame it opens, or it is unsafe. */
  lemma CallOverflowsExactly(s: Store, m: Mach, module_: nat, index: nat)
    requires module_ < |s.modules| && index < |s.modules[module_].functions|
    ensures var f := s.modules[module_].functions[index];
            var r := StepCall(s, m, module_, index);
            var end := |m.live| + 2 + DeclaredWords(f.groups) + f.usage;
            && (r == Trapped(StackOverflow, m.trace) <==> end > s.stackWords)
            && (end > s.stackWords || r.Unsafe? || (r.Next? && Current(r.m).Limit() == end))
  {
    hide GroupTypes, DeclaredWords, WordLen, Header, ModuleDelta;
    DeclaredExactly(s.modules[module_].functions[index].groups);
  }

  /** The frame that is opened holds as many zero words as the locals take, above everything that was on the
      stack; and zero is what the semantics starts the locals with. */
  lemma LocalsStartZero(s: Store, m: Mach, module_: nat, index: nat)
    requires module_ < |s.modules| && index < |s.modules[module_].functions|
    requires StepCall(s, m, module_, index).Next?
    ensures var f := s.modules[module_].functions[index];
            var live := StepCall(s, m, module_, index).m.live;
            && |live| == |m.live| + 2 + DeclaredWords(f.groups) && live[..|m.live|] == m.live
            && (forall k :: |m.live| + 2 <= k < |live| ==> live[k] == 0)
            && forall v :: v in Zeros(GroupTypes(f.groups)) ==>
                 v == Value.I32(0) || v == Value.I64(0) || v == Value.F32(0) || v == Value.F64(0)
  {
    hide GroupTypes, DeclaredWords, WordLen, Header, ModuleDelta;
    var f := s.modules[module_].functions[index];
    DeclaredExactly(f.groups);
    AllZero(f.LocalWords());
  }

  lemma {:induction false} AllZero(n: nat)
    ensures forall k :: 0 <= k < n ==> ZeroWords(n)[k] == 0
  {
    if n > 0 { AllZero(n - 1); }
  }

  /** And an invocation, on an empty stack with its arguments. */
  lemma InvokeOverflowsExactly(s: Store, module_: nat, index: nat, args: seq<Value>)
    requires module_ < |s.modules| && index < |s.modules[module_].functions|
    requires TypesOf(args) == s.modules[module_].functions[index].sig.params
    requires WordLen(s.modules[module_].functions[index].sig.params) <= 0xFF
    ensures var f := s.modules[module_].functions[index];
            var r := Invoke(s, module_, index, args);
            var end := |Flat(args)| + 2 + DeclaredWords(f.groups) + f.usage;
            && (r == Trapped(StackOverflow, []) <==> end > s.stackWords)
            && (end > s.stackWords || (r.Next? && Current(r.m).Limit() == end))
            && (Engine.InvokeFailure(s, true, module_, index, args)
                == if end > s.stackWords then Some(Engine.InvokeError.StackOverflow) else None)
  {
    hide GroupTypes, DeclaredWords, WordLen, Header;
    DeclaredExactly(s.modules[module_].functions[index].groups);
    FlatLen(args);
  }

  /** The steps at which a loaded function was compiled. */
  function CompiledSteps(s: Store, code: seq<Word>, options: Options, module_: nat, index: nat): seq<Visit>
    requires module_ < |s.modules| && index < |s.modules[module_].functions|
    requires FuncLoaded(s, code, options, module_, index)
  {
    var f := s.modules[module_].functions[index];
    FuncTrail(Context(f.sig, f.groups, s.modules[module_].index, options), code[..f.entry], f.body)
  }

  /** A call of a loaded function overflows exactly when, at some step at which the function was compiled, the
      operands counted there would not fit: no call that fits at every step is refused. */
  lemma OverflowsForSomeHeight(s: Store, code: seq<Word>, options: Options, m: Mach, module_: nat, index: nat)
    requires module_ < |s.modules| && index < |s.modules[module_].functions|
    requires FuncLoaded(s, code, options, module_, index) && OptionsOk(options) && |code| < 0x8000_0000
    ensures var f := s.modules[module_].functions[index];
            var t := CompiledSteps(s, code, options, module_, index);
            StepCall(s, m, module_, index) == Trapped(StackOverflow, m.trace) <==>
            exists i :: 0 <= i < |t| && |m.live| + 2 + DeclaredWords(f.groups) + Height(t[i].st.values) > s.stackWords
  {
    hide DeclaredWords, FuncTrail, StepCall, CompileFunc, Height;
    var f := s.modules[module_].functions[index];
    UsageExactly(Context(f.sig, f.groups, s.modules[module_].index, options), code[..f.entry], f.body);
    CallOverflowsExactly(s, m, module_, index);
  }
}
