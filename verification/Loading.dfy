/** Loading modules one after another (src/module.rs, src/code.rs): every store that loading makes
    is one the main results hold for. */
module Loading {
  import opened Values
  import opened Ir
  import opened Wasm
  import opened Text
  import opened Chains
  import opened Frames
  import opened Extension
  import opened Calls
  import opened Bodies

  /** A function as the function and code sections declare it. */
  datatype FuncDecl = FuncDecl(sig: FuncSig, groups: seq<LocalGroup>, body: Code)

  /** Compile the functions of a module in order, each behind the one before. */
  function LoadFuncs(index: seq<FuncEntry>, options: Options, code: seq<Word>, decls: seq<FuncDecl>):
    Result<(seq<Word>, seq<Func>), Error>
    decreases |decls|
  {
    if decls == [] then Ok((code, []))
    else
      var d := decls[0];
      var r :- CompileFunc(Context(d.sig, d.groups, index, options), code, d.body);
      var (code', fs) :- LoadFuncs(index, options, r.code, decls[1..]);
      Ok((code', [Func(d.sig, d.groups, d.body, |code|, r.usage)] + fs))
  }

  // ----- code only grows -----

  lemma CompileFuncGrows(c: Context, code: seq<Word>, body: Code)
    requires OptionsOk(c.options) && |code| < 0x8000_0000 && CompileFunc(c, code, body).Ok?
    ensures code <= CompileFunc(c, code, body).value.code
    ensures |CompileFunc(c, code, body).value.code| < 0x8000_0000
  {
    hide Compile, Agree, Chain, Backpatch;
    var st0 := Start(c, code);
    assert ChainsOk(st0, |code|);
    CompileExtends(c, st0, body, |code|);
    var st := Compile(c, st0, body).value;
    assert FrameOk(st, 0, |code|);
    assert st.code[..|code|] == code;
    FinishAppends(c, st, |code|);
  }

  lemma FinishAppends(c: Context, st: State, lo: nat)
    requires OptionsOk(c.options) && |st.frames| == 1 && FrameOk(st, 0, lo) && Finish(c, st).Ok?
    ensures st.code <= Finish(c, st).value.code && |Finish(c, st).value.code| < 0x8000_0000
  {
    hide Backpatch;
    DropFrameCode(st);
  }

  /** Compiling at the end of longer code is not looked at here: `f` stays compiled when code is added
      behind it. */
  lemma CompilesLonger(index: seq<FuncEntry>, code: seq<Word>, code': seq<Word>, options: Options, f: Func)
    requires Compiles(index, code, options, f) && code <= code'
    ensures Compiles(index, code', options, f)
    ensures CodeEnd(index, code', options, f) == CodeEnd(index, code, options, f) <= |code|
  {
    hide CompileFunc;
    assert code'[..f.entry] == code[..f.entry];
  }

  /** Every function of a module is compiled in the code that results, and nothing before it changed. */
  lemma {:induction false} LoadFuncsOk(index: seq<FuncEntry>, options: Options, code: seq<Word>, decls: seq<FuncDecl>)
    requires OptionsOk(options) && |code| < 0x8000_0000 && LoadFuncs(index, options, code, decls).Ok?
    requires forall i :: 0 <= i < |decls| ==> WordLen(decls[i].sig.params) <= 0xFF
    ensures var (code', fs) := LoadFuncs(index, options, code, decls).value;
            && code <= code' && |code'| < 0x8000_0000 && |fs| == |decls|
            && (forall i :: 0 <= i < |fs| ==>
                  && Compiles(index, code', options, fs[i]) && |code| <= fs[i].entry
                  && FuncDecl(fs[i].sig, fs[i].groups, fs[i].body) == decls[i])
            && InOrder(index, code', options, fs)
    decreases |decls|
  {
    hide CompileFunc, CodeEnd, Compiles, InOrder;
    if decls == [] {
      OrderNone(index, code, options);
    } else {
      var d := decls[0];
      var c := Context(d.sig, d.groups, index, options);
      CompileFuncGrows(c, code, d.body);
      var r := CompileFunc(c, code, d.body).value;
      LoadFuncsOk(index, options, r.code, decls[1..]);
      var (code', fs) := LoadFuncs(index, options, r.code, decls[1..]).value;
      var f := Func(d.sig, d.groups, d.body, |code|, r.usage);
      FirstCompiles(index, options, code, code', d, f);
      OrderFirst(index, code', options, f, fs);
    }
  }

  lemma FirstCompiles(index: seq<FuncEntry>, options: Options, code: seq<Word>, code': seq<Word>, d: FuncDecl, f: Func)
    requires CompileFunc(Context(d.sig, d.groups, index, options), code, d.body).Ok? && WordLen(d.sig.params) <= 0xFF
    requires var r := CompileFunc(Context(d.sig, d.groups, index, options), code, d.body).value;
             code <= r.code <= code' && f == Func(d.sig, d.groups, d.body, |code|, r.usage)
    ensures Compiles(index, code', options, f)
    ensures CodeEnd(index, code', options, f)
         == |CompileFunc(Context(d.sig, d.groups, index, options), code, d.body).value.code|
  {
    hide CompileFunc;
    assert code'[..|code|] == code;
  }

  /** Functions lie one behind the other. */
  predicate InOrder(index: seq<FuncEntry>, code: seq<Word>, options: Options, fs: seq<Func>)
    requires forall i :: 0 <= i < |fs| ==> Compiles(index, code, options, fs[i])
  {
    forall i, j :: 0 <= i < j < |fs| ==> CodeEnd(index, code, options, fs[i]) <= fs[j].entry
  }

  lemma OrderNone(index: seq<FuncEntry>, code: seq<Word>, options: Options)
    ensures InOrder(index, code, options, [])
  {
  }

  lemma OrderFirst(index: seq<FuncEntry>, code: seq<Word>, options: Options, f: Func, fs: seq<Func>)
    requires Compiles(index, code, options, f) && forall i :: 0 <= i < |fs| ==> Compiles(index, code, options, fs[i])
    requires forall i :: 0 <= i < |fs| ==> CodeEnd(index, code, options, f) <= fs[i].entry
    requires InOrder(index, code, options, fs)
    ensures forall i :: 0 <= i < |fs| + 1 ==> Compiles(index, code, options, ([f] + fs)[i])
    ensures InOrder(index, code, options, [f] + fs)
  {
    hide Compiles, CodeEnd;
    forall i, j | 0 <= i < j < |fs| + 1
      ensures CodeEnd(index, code, options, ([f] + fs)[i]) <= ([f] + fs)[j].entry
    {
      assert ([f] + fs)[j] == fs[j - 1];
      if i > 0 { assert ([f] + fs)[i] == fs[i - 1]; }
    }
  }

  // ----- stores -----

  lemma RefsKept(s: Store, m: nat, e: FuncEntry, last: Module)
    requires m < |s.modules| && RefOk(s, m, e)
    ensures RefOk(s.(modules := s.modules + [last]), m, e)
  {
  }

  /** A store with no modules. */
  lemma EmptyLoaded(s: Store, options: Options)
    requires s.modules == [] && HostsTyped(s) && OptionsOk(options)
    ensures Loaded(s, [], options)
  {
    hide HostsTyped;
  }

  /** The store with one more module. */
  function WithModule(s: Store, index: seq<FuncEntry>, fs: seq<Func>): Store {
    s.(modules := s.modules + [Module(fs, index)])
  }

  /** Loading a module whose imports resolve keeps everything the main results need. */
  lemma LoadModuleKeeps(s: Store, code: seq<Word>, options: Options, index: seq<FuncEntry>, decls: seq<FuncDecl>)
    requires Loaded(s, code, options) && |s.modules| < 0x100
    requires forall i :: 0 <= i < |decls| ==> WordLen(decls[i].sig.params) <= 0xFF
    requires LoadFuncs(index, options, code, decls).Ok?
    requires var s' := WithModule(s, index, LoadFuncs(index, options, code, decls).value.1);
             forall x :: 0 <= x < |index| ==> RefOk(s', |s.modules|, index[x])
    ensures var (code', fs) := LoadFuncs(index, options, code, decls).value;
            Loaded(WithModule(s, index, fs), code', options) && code <= code'
  {
    hide Compiles, CodeEnd, InOrder;
    LoadFuncsOk(index, options, code, decls);
    var (code', fs) := LoadFuncs(index, options, code, decls).value;
    var s' := WithModule(s, index, fs);
    var n := |s.modules|;
    HostsKept(s, s');
    forall m, x | 0 <= m < |s'.modules| && 0 <= x < |s'.modules[m].index| ensures RefOk(s', m, s'.modules[m].index[x]) {
      if m < n { RefsKept(s, m, s.modules[m].index[x], s'.modules[n]); }
    }
    forall m, i | 0 <= m < |s'.modules| && 0 <= i < |s'.modules[m].functions|
      ensures FuncLoaded(s', code', options, m, i)
    {
      if m < n {
        assert FuncLoaded(s, code, options, m, i);
        CompilesLonger(s.modules[m].index, code, code', options, s.modules[m].functions[i]);
      }
    }
    LoadedApart(s, code, options, s', code');
  }

  /** A new module's functions lie behind all others, and in order. */
  lemma LoadedApart(s: Store, code: seq<Word>, options: Options, s': Store, code': seq<Word>)
    requires Loaded(s, code, options) && code <= code'
    requires |s'.modules| == |s.modules| + 1 && s'.modules[..|s.modules|] == s.modules
    requires forall m, i :: 0 <= m < |s'.modules| && 0 <= i < |s'.modules[m].functions| ==>
        FuncLoaded(s', code', options, m, i)
    requires var n := |s.modules|;
             var fs := s'.modules[n].functions;
             && (forall i :: 0 <= i < |fs| ==>
                   Compiles(s'.modules[n].index, code', options, fs[i]) && |code| <= fs[i].entry)
             && InOrder(s'.modules[n].index, code', options, fs)
    ensures forall m, i, n, j :: InStore(s', m, i) && InStore(s', n, j) && (m != n || i != j) ==>
              FuncsApart(s', code', options, m, i, n, j)
  {
    hide Compiles, CodeEnd, Linked, HostsTyped;
    var k := |s.modules|;
    forall m, i | 0 <= m < k && 0 <= i < |s'.modules[m].functions|
      ensures s'.modules[m] == s.modules[m]
      ensures FuncEnd(s', code', options, m, i) == FuncEnd(s, code, options, m, i) <= |code|
    {
      assert s'.modules[m] == s.modules[m];
      assert FuncLoaded(s, code, options, m, i);
      CompilesLonger(s.modules[m].index, code, code', options, s.modules[m].functions[i]);
    }
    forall m, i, n, j | InStore(s', m, i) && InStore(s', n, j) && (m != n || i != j)
      ensures FuncsApart(s', code', options, m, i, n, j)
    {
      if m < k && n < k {
        assert FuncsApart(s, code, options, m, i, n, j);
      }
    }
  }

  lemma HostsKept(s: Store, s': Store)
    requires HostsTyped(s) && s'.hosts == s.hosts && s'.reply == s.reply
    ensures HostsTyped(s')
  {
    forall trace: seq<HostCall> ensures HostTyped(s', trace) {
      assert HostTyped(s, trace);
    }
  }

  // ----- from the stream of a code section -----

  lemma DeclaredGrows(index: seq<FuncEntry>, options: Options, code: seq<Word>, d: Declared)
    requires OptionsOk(options) && |code| < 0x8000_0000
    ensures ReadDeclared(index, options, code, d).Ok? ==>
              code <= CodeWith(index, options, code, d) && |CodeWith(index, options, code, d)| < 0x8000_0000
  {
    hide ReadFunction, CompileFunc;
    if ReadDeclared(index, options, code, d).Ok? {
      DeclaredCompiles(index, options, code, d);
      var f := ReadDeclared(index, options, code, d).value;
      CompileFuncGrows(Context(f.sig, f.groups, index, options), code, f.body);
    }
  }

  /** A function of an accepted stream, as it is declared to the compiler. */
  function DeclOf(d: Declared): FuncDecl
    requires Groups(d.locals).Ok?
  {
    FuncDecl(d.sig, Groups(d.locals).value, BodyOf(d.tokens))
  }

  /** Reading an accepted code section is compiling its functions. */
  lemma {:induction false} ReadAllLoads(index: seq<FuncEntry>, options: Options, code: seq<Word>, decls: seq<Declared>)
    requires ReadAll(index, options, code, decls).Ok?
    ensures forall i :: 0 <= i < |decls| ==> Groups(decls[i].locals).Ok?
    ensures LoadFuncs(index, options, code, seq(|decls|, i requires 0 <= i < |decls| => DeclOf(decls[i])))
         == ReadAll(index, options, code, decls)
    decreases |decls|
  {
    hide ReadFunction, CompileFunc, Groups;
    if decls != [] {
      DeclaredCompiles(index, options, code, decls[0]);
      var rest := decls[1..];
      ReadAllLoads(index, options, CodeWith(index, options, code, decls[0]), rest);
      forall i | 0 <= i < |decls| ensures Groups(decls[i].locals).Ok? {
        if i > 0 { assert decls[i] == rest[i - 1]; }
      }
      assert seq(|decls|, i requires 0 <= i < |decls| => DeclOf(decls[i]))[1..]
          == seq(|rest|, i requires 0 <= i < |rest| => DeclOf(rest[i]));
    }
  }

  /** An entry of a function index space that leads to the store, or to the module that is loaded. */
  predicate RefReady(s: Store, decls: seq<Declared>, e: FuncEntry) {
    match e.ref
    case Local(i) => i < |decls| && decls[i].sig == e.sig
    case Extern(k, i) => k < |s.modules| && i < |s.modules[k].functions| && s.modules[k].functions[i].sig == e.sig
    case Host(h, i) => h < |s.hosts| && i < |s.hosts[h]| && s.hosts[h][i] == e.sig
  }

  /** A module read from its stream keeps everything the main results need. */
  lemma ReadModuleKeeps(s: Store, code: seq<Word>, options: Options, index: seq<FuncEntry>, decls: seq<Declared>)
    requires Loaded(s, code, options) && |s.modules| < 0x100
    requires forall i :: 0 <= i < |decls| ==> WordLen(decls[i].sig.params) <= 0xFF
    requires forall x :: 0 <= x < |index| ==> RefReady(s, decls, index[x])
    requires ReadAll(index, options, code, decls).Ok?
    ensures var (code', fs) := ReadAll(index, options, code, decls).value;
            && Loaded(WithModule(s, index, fs), code', options) && code <= code'
            && |fs| == |decls| && forall i :: 0 <= i < |fs| ==> fs[i].sig == decls[i].sig
  {
    hide Loaded, ReadAll, LoadFuncs, Groups, Compiles, InOrder;
    ReadAllLoads(index, options, code, decls);
    var ds := seq(|decls|, i requires 0 <= i < |decls| => DeclOf(decls[i]));
    var (code', fs) := ReadAll(index, options, code, decls).value;
    LoadedOptions(s, code, options);
    LoadFuncsOk(index, options, code, ds);
    forall i | 0 <= i < |fs| ensures fs[i].sig == decls[i].sig {
      assert FuncDecl(fs[i].sig, fs[i].groups, fs[i].body) == ds[i];
    }
    var s' := WithModule(s, index, fs);
    forall x | 0 <= x < |index| ensures RefOk(s', |s.modules|, index[x]) {
      assert RefReady(s, decls, index[x]);
    }
    LoadModuleKeeps(s, code, options, index, ds);
  }

  lemma LoadedOptions(s: Store, code: seq<Word>, options: Options)
    requires Loaded(s, code, options)
    ensures OptionsOk(options) && |code| < 0x8000_0000
  {
  }
}
