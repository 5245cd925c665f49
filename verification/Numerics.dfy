/** What the numeric instructions compute, in terms of numbers alone: sections 4.3.2 and 4.3.3 of the
    WebAssembly Core Specification 1.0, and the words the interpreter leaves on its stack. */
module Numerics {
  import opened Values
  import opened Ir
  import opened Wasm
  import opened Machine
  import opened Simulation

  lemma OneType(v: Value)
    ensures TypesOf([v]) == [v.Type()]
  {
  }

  lemma TwoTypes(v: Value, w: Value)
    ensures TypesOf([v, w]) == [v.Type(), w.Type()]
  {
  }

  /** 32-bit tests and sums; a sum is taken modulo 2^32. */
  lemma Meaning32(u: U32, v: U32)
    ensures TypesOf([Value.I32(u)]) == [ValType.I32]
    ensures TypesOf([Value.I32(u), Value.I32(v)]) == [ValType.I32, ValType.I32]
    ensures EvalNum(I32Eqz, [Value.I32(u)]) == Some(Value.I32(if u == 0 then 1 else 0))
    ensures EvalNum(I32Add, [Value.I32(u), Value.I32(v)])
         == Some(Value.I32(if u + v < 0x1_0000_0000 then u + v else u + v - 0x1_0000_0000))
    ensures EvalNum(I64ExtendI32U, [Value.I32(u)]) == Some(Value.I64(u))
  {
    OneType(Value.I32(u));
    TwoTypes(Value.I32(u), Value.I32(v));
  }

  /** Division traps exactly on zero, and otherwise gives the quotient `q`, the remainder being `r`. */
  lemma Division(u: U32, v: U32, q: int, r: int)
    requires v == 0 || (u == v * q + r && 0 <= r < v)
    ensures TypesOf([Value.I32(u), Value.I32(v)]) == [ValType.I32, ValType.I32]
    ensures v == 0 ==> EvalNum(I32DivU, [Value.I32(u), Value.I32(v)]) == None
    ensures v != 0 ==> 0 <= q <= u && EvalNum(I32DivU, [Value.I32(u), Value.I32(v)]) == Some(Value.I32(q))
  {
    TwoTypes(Value.I32(u), Value.I32(v));
    if v != 0 {
      OneQuotient(u, v, q, DivU(u, v));
      DivShrinks(u, v);
      OneQuotient(u, v, q, u / v);
    }
    hide DivU;
  }

  /** 64-bit tests and sums; a sum is taken modulo 2^64. */
  lemma Meaning64(a: U64, b: U64)
    ensures TypesOf([Value.I64(a)]) == [ValType.I64]
    ensures TypesOf([Value.I64(a), Value.I64(b)]) == [ValType.I64, ValType.I64]
    ensures EvalNum(I64Eqz, [Value.I64(a)]) == Some(Value.I32(if a == 0 then 1 else 0))
    ensures EvalNum(I64Eq, [Value.I64(a), Value.I64(b)]) == Some(Value.I32(if a == b then 1 else 0))
    ensures EvalNum(NumOp.I64Add, [Value.I64(a), Value.I64(b)])
         == Some(Value.I64(if a + b < 0x1_0000_0000_0000_0000 then a + b else a + b - 0x1_0000_0000_0000_0000))
  {
    OneType(Value.I64(a));
    TwoTypes(Value.I64(a), Value.I64(b));
  }

  /** An i64 lies on the stack as its low word and then its high word, and wrapping keeps the low one. */
  lemma WordsOf64(low: U32, high: U32)
    ensures var d: U64 := low + high * 0x1_0000_0000;
            && ToWords(Value.I64(d)) == [low, high] && ToWords(Value.F64(d)) == [low, high]
            && TypesOf([Value.I64(d)]) == [ValType.I64]
            && EvalNum(I32WrapI64, [Value.I64(d)]) == Some(Value.I32(low))
  {
    var d: U64 := low + high * 0x1_0000_0000;
    OneType(Value.I64(d));
    assert d % 0x1_0000_0000 == low && d / 0x1_0000_0000 == high;
  }

  /** The division handler on a stack that ends in `u` and `v`: it traps, or leaves the quotient. */
  lemma DivisionStep(m: Mach, below: seq<U32>, u: U32, v: U32, q: int, r: int, next: int)
    requires m.live == below + [u, v] && CanPop(m, 2)
    requires v == 0 || (u == v * q + r && 0 <= r < v)
    ensures v == 0 ==> StepNum(I32DivU, m, next) == Trapped(DivideByZero, m.trace)
    ensures v != 0 ==> 0 <= q <= u && StepNum(I32DivU, m, next) == Replace(m, 2, [q], next)
  {
    Division(u, v, q, r);
    NumParamWords(I32DivU);
    assert m.live[|m.live| - 2..] == [u, v];
    WordsDivide(u, v, q);
    hide NumWords, EvalNum, Replace, CanPop;
  }

  lemma WordsDivide(u: U32, v: U32, q: int)
    requires v != 0 ==> TypesOf([Value.I32(u), Value.I32(v)]) == [ValType.I32, ValType.I32]
                        && 0 <= q <= u && EvalNum(I32DivU, [Value.I32(u), Value.I32(v)]) == Some(Value.I32(q))
    ensures WordLen(NumParams(I32DivU)) == 2
    ensures NumWords(I32DivU, [u, v]) == if v == 0 then None else Some([q])
  {
    NumParamWords(I32DivU);
    TwoTypes(Value.I32(u), Value.I32(v));
    NumSim(I32DivU, [Value.I32(u), Value.I32(v)]);
    FlatTwo(Value.I32(u), Value.I32(v));
    assert [u] + [v] == [u, v];
    hide NumWords, DivU, Flat, WordLen;
  }
}
