/** The main results about an invocation of loaded code: its outcome is the one the structured
    semantics gives, in both directions; the machine never leaves the bounds the engine relies on;
    and at every step the stack pointer is where the compiler counted it to be. */
module Safety {
  import opened Values
  import opened Label
  import opened Ir
  import opened Wasm
  import opened Text
  import opened Locals
  import opened Machine
  import opened Simulation
  import opened Preservation
  import opened Blocks
  import opened Calls
  import opened Correctness

  /** The program points of each function. */
  function ProgramPoints(s: Store, code: seq<Word>, options: Options): PointMap {
    (m: nat, i: nat) =>
      if m < |s.modules| && i < |s.modules[m].functions| && FuncLoaded(s, code, options, m, i)
      then FuncPoints(s, code, options, m, i) else {}
  }

  /** What the structured semantics says about an invocation. */
  function Meaning(s: Store, module_: nat, index: nat, args: seq<Value>, fuel: nat): Outcome {
    ExecFunc(s, module_, index, Config([], args, []), 0, fuel)
  }

  /** An invocation the source accepts: the function exists and the arguments have its types. */
  ghost predicate Invocable(s: Store, code: seq<Word>, options: Options, module_: nat, index: nat, args: seq<Value>) {
    && Loaded(s, code, options)
    && module_ < |s.modules| && index < |s.modules[module_].functions|
    && TypesOf(args) == s.modules[module_].functions[index].sig.params
  }

  /** The activation of an invoked function. */
  ghost function Entry(s: Store, code: seq<Word>, options: Options, module_: nat, index: nat): Site
    requires Loaded(s, code, options) && module_ < |s.modules| && index < |s.modules[module_].functions|
    requires s.modules[module_].functions[index].ParamWords() <= 0xFF
  {
    var f := s.modules[module_].functions[index];
    Site(s, code, options, module_, index, f, [], Header(f.ParamWords(), 0, f.ParamWords()), SENTINEL, [],
         ProgramPoints(s, code, options))
  }

  lemma EntryOk(s: Store, code: seq<Word>, options: Options, module_: nat, index: nat, args: seq<Value>)
    requires Invocable(s, code, options, module_, index, args)
    ensures s.modules[module_].functions[index].ParamWords() <= 0xFF
    ensures var f := s.modules[module_].functions[index];
            var y := Entry(s, code, options, module_, index);
            var start := args + Zeros(GroupTypes(f.groups));
            && SiteLoaded(y) && LocalsOk(y, start) && |Flat(args)| == f.ParamWords() && HeaderLength(y.header) == y.Fp()
            && if s.stackWords < f.ParamWords() + f.RequiredWords()
               then Invoke(s, module_, index, args) == Trapped(StackOverflow, [])
               else SiteOk(y) && Invoke(s, module_, index, args) == Next(MachAt(y, f.entry, start, [], []))
  {
    hide Flat, FrameWords, Linked, HostsTyped, FuncPoints, Header, HeaderLength, HeaderParams, HeaderDelta, CompileFunc;
    var f := s.modules[module_].functions[index];
    assert FuncLoaded(s, code, options, module_, index);
    var y := Entry(s, code, options, module_, index);
    FlatLen(args);
    CalleeLocals(y, args);
    CalleeBounds(y, module_, index);
    HeaderFields(f.ParamWords(), 0, f.ParamWords());
    CalleeFrame(y, args, Zeros(GroupTypes(f.groups)));
    FlatNone();
    assert [] + Flat(args) == Flat(args);
    var frame := FrameWords(y, args + Zeros(GroupTypes(f.groups)));
    assert frame + [] == frame;
  }

  // ----- the outcome -----

  /** The machine comes to the outcome `o`, staying on program points; out of fuel means still
      running after at least that many steps. */
  ghost predicate Realizes(s: Store, code: seq<Word>, points: PointMap, m: Mach, t: ResultType, fuel: nat, o: Outcome)
  {
    if o.Normal? then
      && TypesOf(o.c.stack) == ResultTypes(t)
      && exists n :: Follow(s, code, points, m, n) == Finished(Flat(o.c.stack), 0, 0, o.c.trace)
    else if o.Trap? then exists n :: Follow(s, code, points, m, n) == Trapped(o.reason, o.trace)
    else o.Timeout? && exists n :: n >= fuel && StillRunning(Follow(s, code, points, m, n), o.trace)
  }

  lemma MeaningOf(s: Store, code: seq<Word>, options: Options, module_: nat, index: nat, args: seq<Value>, fuel: nat)
    requires Invocable(s, code, options, module_, index, args)
    ensures var f := s.modules[module_].functions[index];
            var start := Config(args + Zeros(GroupTypes(f.groups)), [], []);
            Meaning(s, module_, index, args, fuel) ==
            if s.stackWords < f.ParamWords() + f.RequiredWords() then Trap(StackOverflow, [])
            else LeaveFunc(Exec(s, module_, f.body, start, f.ParamWords() + 2 + f.LocalWords(), fuel),
                           Config([], args, []), [], ResultCount(f.sig.result))
  {
    hide Flat, Loaded, Exec;
    FlatLen(args);
    assert |args| == |TypesOf(args)|;
    assert Top(args, |args|) == args && args[..0] == [];
  }

  /** Every invocation that fits the stack does what the structured semantics says. */
  lemma InvocationRealizes(
    s: Store, code: seq<Word>, options: Options, module_: nat, index: nat, args: seq<Value>, fuel: nat)
    requires Invocable(s, code, options, module_, index, args)
    ensures var r := Invoke(s, module_, index, args);
            var o := Meaning(s, module_, index, args, fuel);
            || (r == Trapped(StackOverflow, []) && o == Trap(StackOverflow, []))
            || (r.Next? && Realizes(s, code, ProgramPoints(s, code, options), r.m,
                                  s.modules[module_].functions[index].sig.result, fuel, o))
  {
    hide Flat, FrameWords, Loaded, FuncPoints, Exec, ExecFunc, Header, SiteOk, SiteLoaded, LocalTypes, Invoke;
    hide MachAt, Realizes, HeaderLength;
    hide ProgramPoints, LeaveFunc;
    EntryOk(s, code, options, module_, index, args);
    MeaningOf(s, code, options, module_, index, args, fuel);
    var f := s.modules[module_].functions[index];
    if f.ParamWords() + f.RequiredWords() <= s.stackWords {
      EntryRuns(Entry(s, code, options, module_, index), args, fuel);
    }
  }

  lemma EntryRuns(y: Site, args: seq<Value>, fuel: nat)
    requires SiteOk(y) && SiteLoaded(y) && LocalsOk(y, args + Zeros(GroupTypes(y.f.groups)))
    requires y.back == SENTINEL && y.below == [] && HeaderLength(y.header) == y.Fp()
    ensures var start := args + Zeros(GroupTypes(y.f.groups));
            var o := Exec(y.s, y.module_, y.f.body, Config(start, [], []), y.f.ParamWords() + 2
                + y.f.LocalWords(), fuel);
            Realizes(y.s, y.code, y.points, MachAt(y, y.f.entry, start, [], []), y.f.sig.result, fuel,
                     LeaveFunc(o, Config([], args, []), [], ResultCount(y.f.sig.result)))
  {
    hide Flat, FrameWords, Exec, SiteOk, SiteLoaded, LocalTypes, MachAt, Realizes, FuncSims, HeaderLength;
    var start := args + Zeros(GroupTypes(y.f.groups));
    FuncBody(y, start, [], fuel);
    EntryEnds(y, MachAt(y, y.f.entry, start, [], []), fuel,
              Exec(y.s, y.module_, y.f.body, Config(start, [], []), y.Call().Base(), fuel), args);
  }

  lemma EntryEnds(y: Site, m: Mach, fuel: nat, o: Outcome, args: seq<Value>)
    requires FuncSims(y, m, fuel, o) && y.back == SENTINEL && y.below == []
    requires HeaderLength(y.header) == y.Fp()
    ensures Realizes(y.s, y.code, y.points, m, y.f.sig.result, fuel,
        LeaveFunc(o, Config([], args, []), [], ResultCount(y.f.sig.result)))
  {
    hide Flat, FrameWords, Follow, HeaderLength;
    if !o.Trap? && !o.Timeout? {
      var results := Top(o.c.stack, ResultCount(y.f.sig.result));
      assert [] + results == results;
      var n :| n >= 1 && Follow(y.s, y.code, y.points, m, n) == ReturnStep(y, Flat(results), o.c.trace);
      assert Follow(y.s, y.code, y.points, m, n) == Finished(Flat(results), 0, 0, o.c.trace);
    }
  }

  // ----- every step of every run -----

  lemma {:induction false} FollowIsRun(s: Store, code: seq<Word>, points: PointMap, m: Mach, n: nat)
    requires !Follow(s, code, points, m, n).Unsafe?
    ensures Run(s, code, m, n) == Follow(s, code, points, m, n)
    decreases n
  {
    hide Advance, Located;
    if n > 0 && Located(s, points, m) {
      var r := Advance(s, code, m);
      if r.Next? { FollowIsRun(s, code, points, r.m, n - 1); }
    }
  }

  /** A run that goes on past `n` steps is on a program point after them. */
  lemma StillLocated(s: Store, code: seq<Word>, points: PointMap, m: Mach, n: nat, k: nat)
    requires n < k && !Follow(s, code, points, m, k).Unsafe?
    ensures var r := Follow(s, code, points, m, n);
            if r.Next? then Located(s, points, r.m) else r == Follow(s, code, points, m, k)
  {
    hide Advance, Located;
    FollowSplit(s, code, points, m, n, k - n);
    var r := Follow(s, code, points, m, n);
    if r.Next? {
      FollowSplit(s, code, points, r.m, 1, k - n - 1);
    }
  }

  lemma StillSame(s: Store, code: seq<Word>, points: PointMap, m: Mach, n: nat, k: nat)
    requires k <= n && !Follow(s, code, points, m, k).Next?
    ensures Follow(s, code, points, m, n) == Follow(s, code, points, m, k)
  {
    hide Advance, Located;
    FollowSplit(s, code, points, m, k, n - k);
  }

  /** Memory safety of every run of loaded code, of any length: the machine is never unsafe, so no
      access ever leaves its frame's bounds; and as long as it runs, the frame at hand is that of a
      function, and the machine is at an instruction the compiler emitted for it, with the operand
      height the compiler counted there. */
  lemma NeverUnsafe(s: Store, code: seq<Word>, options: Options, module_: nat, index: nat, args: seq<Value>, n: nat)
    requires Invocable(s, code, options, module_, index, args)
    ensures Invoke(s, module_, index, args).Next? || Invoke(s, module_, index, args) == Trapped(StackOverflow, [])
    ensures Invoke(s, module_, index, args).Next? ==>
              var r := Run(s, code, Invoke(s, module_, index, args).m, n);
              && (r.Next? || r.Finished? || r.Trapped?)
              && (r.Next? ==> Located(s, ProgramPoints(s, code, options), r.m))
  {
    hide Loaded, FuncPoints, ExecFunc, Invoke, Located, Run, Follow, Flat;
    var r := Invoke(s, module_, index, args);
    InvocationRealizes(s, code, options, module_, index, args, n + 1);
    if r.Next? {
      var points := ProgramPoints(s, code, options);
      var o := Meaning(s, module_, index, args, n + 1);
      var k: nat;
      if o.Normal? {
        k :| Follow(s, code, points, r.m, k) == Finished(Flat(o.c.stack), 0, 0, o.c.trace);
      } else if o.Trap? {
        k :| Follow(s, code, points, r.m, k) == Trapped(o.reason, o.trace);
      } else {
        k :| k >= n + 1 && StillRunning(Follow(s, code, points, r.m, k), o.trace);
      }
      if n < k {
        StillLocated(s, code, points, r.m, n, k);
      } else {
        StillSame(s, code, points, r.m, n, k);
      }
      FollowIsRun(s, code, points, r.m, n);
    }
  }

  /** Agreement, from the machine's side: if it finishes or traps within `n` steps, then so does the
      structured semantics with a little more fuel, with the same results, trap and host calls; and
      finishing leaves both registers at zero. */
  lemma Agreement(s: Store, code: seq<Word>, options: Options, module_: nat, index: nat, args: seq<Value>, n: nat)
    requires Invocable(s, code, options, module_, index, args)
    requires Invoke(s, module_, index, args).Next?
    ensures var r := Run(s, code, Invoke(s, module_, index, args).m, n);
            var o := Meaning(s, module_, index, args, n + 1);
            && (r.Finished? ==>
                  && r.sp == 0 && r.fp == 0 && o.Normal? && r.result == Flat(o.c.stack) && r.trace == o.c.trace
                  && TypesOf(o.c.stack) == ResultTypes(s.modules[module_].functions[index].sig.result))
            && (r.Trapped? ==> o == Trap(r.reason, r.trace))
  {
    hide Loaded, FuncPoints, ExecFunc, Invoke, Located, Run, Follow, Flat;
    var m := Invoke(s, module_, index, args).m;
    InvocationRealizes(s, code, options, module_, index, args, n + 1);
    var points := ProgramPoints(s, code, options);
    var o := Meaning(s, module_, index, args, n + 1);
    if o.Normal? {
      var k :| Follow(s, code, points, m, k) == Finished(Flat(o.c.stack), 0, 0, o.c.trace);
      SameEnd(s, code, points, m, n, k);
    } else if o.Trap? {
      var k :| Follow(s, code, points, m, k) == Trapped(o.reason, o.trace);
      SameEnd(s, code, points, m, n, k);
    } else {
      var k :| k >= n + 1 && StillRunning(Follow(s, code, points, m, k), o.trace);
      StillLocated(s, code, points, m, n, k);
      FollowIsRun(s, code, points, m, n);
    }
  }

  /** A run that ends ends in one way only. */
  lemma SameEnd(s: Store, code: seq<Word>, points: PointMap, m: Mach, n: nat, k: nat)
    requires !Follow(s, code, points, m, k).Next? && !Follow(s, code, points, m, k).Unsafe?
    ensures Run(s, code, m, n).Next? || Run(s, code, m, n) == Follow(s, code, points, m, k)
  {
    hide Advance, Located, Run, Follow;
    if n < k {
      StillLocated(s, code, points, m, n, k);
    } else {
      StillSame(s, code, points, m, n, k);
    }
    FollowIsRun(s, code, points, m, n);
  }

  /** Agreement, from the semantics' side: what it says an invocation comes to, the machine reaches. */
  lemma Reaches(s: Store, code: seq<Word>, options: Options, module_: nat, index: nat, args: seq<Value>, fuel: nat)
    requires Invocable(s, code, options, module_, index, args)
    requires Invoke(s, module_, index, args).Next?
    ensures var m := Invoke(s, module_, index, args).m;
            var o := Meaning(s, module_, index, args, fuel);
            && (o.Normal? ==> exists n :: Run(s, code, m, n) == Finished(Flat(o.c.stack), 0, 0, o.c.trace))
            && (o.Trap? ==> exists n :: Run(s, code, m, n) == Trapped(o.reason, o.trace))
            && (o.Normal? || o.Trap? || (o.Timeout? && Run(s, code, m, fuel).Next?))
  {
    hide Loaded, FuncPoints, ExecFunc, Invoke, Located, Run, Follow, Flat;
    var m := Invoke(s, module_, index, args).m;
    InvocationRealizes(s, code, options, module_, index, args, fuel);
    var points := ProgramPoints(s, code, options);
    var o := Meaning(s, module_, index, args, fuel);
    if o.Normal? {
      var k :| Follow(s, code, points, m, k) == Finished(Flat(o.c.stack), 0, 0, o.c.trace);
      FollowIsRun(s, code, points, m, k);
    } else if o.Trap? {
      var k :| Follow(s, code, points, m, k) == Trapped(o.reason, o.trace);
      FollowIsRun(s, code, points, m, k);
    } else {
      var k :| k >= fuel && StillRunning(Follow(s, code, points, m, k), o.trace);
      if fuel < k {
        StillLocated(s, code, points, m, fuel, k);
      }
      FollowIsRun(s, code, points, m, fuel);
    }
  }
}
