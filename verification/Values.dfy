/** Machine words, value types and values (src/types.rs), and how a value lies on the
    interpreter's stack of 32-bit words (src/stack.rs). */
module Values {

  datatype Option<+T> = None | Some(value: T)

  /** The loader's `Result`: it can be used with `:-`. */
  datatype Result<+T, +E> = Ok(value: T) | Err(error: E) {
    predicate IsFailure() { Err? }

    function PropagateFailure<U>(): Result<U, E>
      requires Err?
    {
      Err(error)
    }

    function Extract(): T
      requires Ok?
    {
      value
    }
  }

  type U8 = x: int | 0 <= x < 0x100
  /** One 16-bit word of compiled code. */
  type Word = x: int | 0 <= x < 0x1_0000
  type I16 = x: int | -0x8000 <= x < 0x8000
  /** One 32-bit word of the interpreter's stack. */
  type U32 = x: int | 0 <= x < 0x1_0000_0000
  type U64 = x: int | 0 <= x < 0x1_0000_0000_0000_0000

  datatype ValType = I32 | I64 | F32 | F64

  /** Size in 32-bit words; the source's `size()` is four times this. */
  function Width(t: ValType): nat {
    if t.I32? || t.F32? then 1 else 2
  }

  /** A value; floating-point values are kept as their bit patterns. */
  datatype Value =
    | I32(word: U32)
    | I64(dword: U64)
    | F32(word: U32)
    | F64(dword: U64)
  {
    function Type(): ValType {
      match this
      case I32(_) => ValType.I32
      case I64(_) => ValType.I64
      case F32(_) => ValType.F32
      case F64(_) => ValType.F64
    }
  }

  function Zero(t: ValType): Value {
    match t
    case I32 => Value.I32(0)
    case I64 => Value.I64(0)
    case F32 => Value.F32(0)
    case F64 => Value.F64(0)
  }

  function Low32(d: U64): U32 { d % 0x1_0000_0000 }

  function High32(d: U64): U32 { d / 0x1_0000_0000 }

  function Join64(lo: U32, hi: U32): U64 { lo + hi * 0x1_0000_0000 }

  /** The words a value occupies, low word first. */
  function ToWords(v: Value): (ws: seq<U32>)
    ensures |ws| == Width(v.Type())
  {
    match v
    case I32(w) => [w]
    case F32(w) => [w]
    case I64(d) => [Low32(d), High32(d)]
    case F64(d) => [Low32(d), High32(d)]
  }

  function FromWords(t: ValType, ws: seq<U32>): (v: Value)
    requires |ws| == Width(t)
    ensures v.Type() == t && ToWords(v) == ws
  {
    match t
    case I32 => Value.I32(ws[0])
    case F32 => Value.F32(ws[0])
    case I64 => Value.I64(Join64(ws[0], ws[1]))
    case F64 => Value.F64(Join64(ws[0], ws[1]))
  }

  lemma FromToWords(v: Value)
    ensures FromWords(v.Type(), ToWords(v)) == v
  {
  }

  function TypesOf(vs: seq<Value>): (ts: seq<ValType>)
    ensures |ts| == |vs|
    ensures forall i :: 0 <= i < |vs| ==> ts[i] == vs[i].Type()
  {
    seq(|vs|, i requires 0 <= i < |vs| => vs[i].Type())
  }

  /** Words taken by a list of types. */
  function WordLen(ts: seq<ValType>): nat {
    if ts == [] then 0 else WordLen(ts[..|ts| - 1]) + Width(ts[|ts| - 1])
  }

  /** The words of a list of values, first value deepest. */
  function Flat(vs: seq<Value>): seq<U32> {
    if vs == [] then [] else Flat(vs[..|vs| - 1]) + ToWords(vs[|vs| - 1])
  }

  lemma FlatPush(vs: seq<Value>, v: Value)
    ensures Flat(vs + [v]) == Flat(vs) + ToWords(v)
  {
    assert (vs + [v])[..|vs|] == vs;
  }

  lemma WordLenPush(ts: seq<ValType>, t: ValType)
    ensures WordLen(ts + [t]) == WordLen(ts) + Width(t)
  {
    assert (ts + [t])[..|ts|] == ts;
  }

  lemma {:induction false} FlatConcat(a: seq<Value>, b: seq<Value>)
    ensures Flat(a + b) == Flat(a) + Flat(b)
    decreases |b|
  {
    if b == [] {
      assert a + b == a;
    } else {
      var b' := b[..|b| - 1];
      assert (a + b)[..|a + b| - 1] == a + b';
      FlatConcat(a, b');
    }
  }

  lemma {:induction false} WordLenConcat(a: seq<ValType>, b: seq<ValType>)
    ensures WordLen(a + b) == WordLen(a) + WordLen(b)
    decreases |b|
  {
    if b == [] {
      assert a + b == a;
    } else {
      var b' := b[..|b| - 1];
      assert (a + b)[..|a + b| - 1] == a + b';
      WordLenConcat(a, b');
    }
  }

  lemma {:induction false} FlatLen(vs: seq<Value>)
    ensures |Flat(vs)| == WordLen(TypesOf(vs))
  {
    if vs != [] {
      FlatLen(vs[..|vs| - 1]);
      assert TypesOf(vs)[..|vs| - 1] == TypesOf(vs[..|vs| - 1]);
    }
  }

  lemma FlatSplit(vs: seq<Value>, x: nat)
    requires x < |vs|
    ensures Flat(vs) == Flat(vs[..x]) + ToWords(vs[x]) + Flat(vs[x + 1..])
  {
    hide Flat, ToWords;
    var (a, v, b) := (vs[..x], vs[x], vs[x + 1..]);
    assert vs == (a + [v]) + b;
    FlatConcat(a + [v], b);
    FlatPush(a, v);
  }

  /** The words of value `x` lie where the widths of the earlier values put them, and replacing it
      by a value of its type replaces those words only. */
  lemma FlatParts(vs: seq<Value>, x: nat, v: Value)
    requires x < |vs| && v.Type() == vs[x].Type()
    ensures Flat(vs) == Flat(vs[..x]) + ToWords(vs[x]) + Flat(vs[x + 1..])
    ensures Flat(vs[x := v]) == Flat(vs[..x]) + ToWords(v) + Flat(vs[x + 1..])
    ensures |Flat(vs[..x])| == WordLen(TypesOf(vs)[..x])
    ensures TypesOf(vs[x := v]) == TypesOf(vs)
  {
    hide Flat, ToWords;
    FlatSplit(vs, x);
    FlatSplit(vs[x := v], x);
    assert vs[x := v][..x] == vs[..x] && vs[x := v][x + 1..] == vs[x + 1..];
    FlatLen(vs[..x]);
    assert TypesOf(vs[..x]) == TypesOf(vs)[..x];
  }
}
