/** Loading a module (src/module.rs): its code section is compiled into the pages, and the store with the
    module is one the main results hold for. */
module Modules {
  import opened Values
  import opened Ir
  import opened Wasm
  import Text
  import opened Calls
  import opened CodeStore
  import opened Compiler
  import opened Loading
  import opened Linking
  import Bodies

  /** All functions of a module, each compiled behind the one before. */
  method ReadCodeSection(index: seq<FuncEntry>, options: Text.Options, code: CodeBuilder, decls: seq<Bodies.Declared>)
    returns (r: Result<seq<FunctionCode>, Error>)
    requires code.Valid() && code.options == options && Text.OptionsOk(options) && |code.Contents()| < 0x8000_0000
    requires forall i :: 0 <= i < |decls| ==> WordLen(decls[i].sig.params) <= 0xFF
    modifies code, code.Repr
    ensures code.Valid() && fresh(code.Repr - old(code.Repr))
    ensures match Bodies.ReadAll(index, options, old(code.Contents()), decls)
            case Ok((contents, fs)) =>
              && r.Ok? && code.Contents() == contents && |r.value| == |fs|
              && forall i :: 0 <= i < |fs| ==> Describes(r.value[i], fs[i])
            case Err(e) => r == Err(e)
  {
    hide Bodies.ReadDeclared, Bodies.CodeWith, Describes;
    var fcs: seq<FunctionCode> := [];
    ghost var fs: seq<Func> := [];
    ghost var was := code.Contents();
    assert decls[0..] == decls;
    NoFuncs(Bodies.ReadAll(index, options, was, decls));
    for i := 0 to |decls|
      invariant code.Valid() && fresh(code.Repr - old(code.Repr)) && |code.Contents()| < 0x8000_0000
      invariant |fcs| == |fs| == i && forall j :: 0 <= j < i ==> Describes(fcs[j], fs[j])
      invariant Bodies.ReadAll(index, options, was, decls) ==
                (var (contents, rest) :- Bodies.ReadAll(index, options, code.Contents(), decls[i..]);
                    Ok((contents, fs + rest)))
    {
      assert decls[i..][0] == decls[i] && decls[i..][1..] == decls[i + 1..];
      ghost var now := code.Contents();
      DeclaredGrows(index, options, now, decls[i]);
      var fc :- ReadFunctionCode(index, options, code, decls[i]);
      ghost var f := Bodies.ReadDeclared(index, options, now, decls[i]).value;
      MoreFuncs(fs, f, Bodies.ReadAll(index, options, code.Contents(), decls[i + 1..]));
      fcs := fcs + [fc];
      fs := fs + [f];
    }
    assert decls[|decls|..] == [] && fs + [] == fs;
    r := Ok(fcs);
  }

  lemma NoFuncs(r: Result<(seq<Word>, seq<Func>), Error>)
    ensures r.Ok? ==> [] + r.value.1 == r.value.1
  {
  }

  lemma MoreFuncs(fs: seq<Func>, f: Func, rest: Result<(seq<Word>, seq<Func>), Error>)
    ensures rest.Ok? ==> fs + ([f] + rest.value.1) == (fs + [f]) + rest.value.1
  {
  }

  // ----- a module -----

  /** The index space of a module that is read against a linked store leads to that store or to the
      module itself. */
  lemma IndexReady(l: Linkage, s: Store, m: LinkModule, decls: seq<Bodies.Declared>, x: nat)
    requires LinkOk(l) && ModuleOk(l, |l.modules|, m) && Mirrors(l, s)
    requires |decls| == |m.functions| && forall i :: 0 <= i < |decls| ==> decls[i].sig == m.functions[i]
    requires x < |FuncIndex(l, |l.modules|, m)|
    ensures RefReady(s, decls, FuncIndex(l, |l.modules|, m)[x])
  {
    PlacesOk(l, |l.modules|, m.imports, true);
    var places := Places(m.imports, true);
    if x < |places| {
      assert places[x] in places && FuncPlaceOk(l, |l.modules|, places[x]);
    }
  }

  /** Adding the module to both stores keeps them alike. */
  lemma StillMirrors(l: Linkage, s: Store, m: LinkModule, fs: seq<Func>)
    requires LinkOk(l) && ModuleOk(l, |l.modules|, m) && Mirrors(l, s) && |l.modules| < 0x100
    requires |fs| == |m.functions| && forall i :: 0 <= i < |fs| ==> fs[i].sig == m.functions[i]
    ensures LinkOk(l.(modules := l.modules + [m]))
    ensures Mirrors(l.(modules := l.modules + [m]), WithModule(s, FuncIndex(l, |l.modules|, m), fs))
  {
    PushKeeps(l, m);
    var l' := l.(modules := l.modules + [m]);
    forall k | 0 <= k < |l'.modules| ensures ModuleOk(l', k, l'.modules[k]) {
    }
    forall k | 0 <= k < |l'.modules|
      ensures WithModule(s, FuncIndex(l, |l.modules|, m), fs).modules[k].index == FuncIndex(l', k, l'.modules[k])
    {
      SameIndex(l, l', k, l'.modules[k]);
    }
  }

  /** Later modules do not change where an index space leads. */
  lemma SameIndex(l: Linkage, l': Linkage, k: nat, m: LinkModule)
    requires LinkOk(l) && LinkOk(l') && ModuleOk(l, k, m) && ModuleOk(l', k, m) && k <= |l.modules|
    requires l.modules <= l'.modules && l.hosts == l'.hosts
    ensures FuncIndex(l, k, m) == FuncIndex(l', k, m)
  {
    PlacesOk(l, k, m.imports, true);
    var places := Places(m.imports, true);
    forall x | 0 <= x < |places| ensures SigAt(l, places[x]) == SigAt(l', places[x]) {
      assert places[x] in places && FuncPlaceOk(l, k, places[x]);
    }
  }

  /** The check of the function section. */
  predicate ParamsFit(m: LinkModule) { forall i :: 0 <= i < |m.functions| ==> WordLen(m.functions[i].params) <= 0xFF }

  /** A module from its declarations to a store that runs: `m` is what its other sections left, linked
      against `l`. If every function is accepted, the store with the module, and the code in the pages,
      satisfy everything the results about invocations require. */
  method LoadModule(
    ghost s: Store, l: Linkage, m: LinkModule, decls: seq<Bodies.Declared>, options: Text.Options, code: CodeBuilder)
    returns (r: Result<seq<FunctionCode>, Error>, ghost s': Store)
    requires LinkOk(l) && ModuleOk(l, |l.modules|, m) && |l.modules| < 0x100 && Mirrors(l, s)
    requires code.Valid() && code.options == options && Loaded(s, code.Contents(), options)
    requires forall i :: 0 <= i < |decls| && i < |m.functions| ==> decls[i].sig == m.functions[i]
    modifies code, code.Repr
    ensures code.Valid() && fresh(code.Repr - old(code.Repr))
    ensures r.Ok? ==> Loaded(s', code.Contents(), options)
    ensures r.Ok? ==> var l' := l.(modules := l.modules + [m]); LinkOk(l') && Mirrors(l', s')
    ensures r.Ok? ==> s'.modules[..|s.modules|] == s.modules && |s'.modules| == |s.modules| + 1
    ensures r.Ok? ==>
              var fs := s'.modules[|s.modules|].functions;
              |r.value| == |fs| == |decls| && forall i :: 0 <= i < |fs| ==> Describes(r.value[i], fs[i])
    ensures !ParamsFit(m) ==> r == Err(Text.FunctionParametersTooLarge)
    ensures ParamsFit(m) && |decls| != |m.functions| ==> r == Err(Text.InvalidCodeSectionFunctionCount)
    ensures ParamsFit(m) && |decls| == |m.functions| ==>
              match Bodies.ReadAll(FuncIndex(l, |l.modules|, m), options, old(code.Contents()), decls)
              case Ok((contents, fs)) => r.Ok? && code.Contents() == contents && s'.modules[|s.modules|].functions == fs
              case Err(e) => r == Err(e)
  {
    hide Loaded, Mirrors, ModuleOk, Describes, Bodies.ReadAll;
    s' := s;
    for i := 0 to |m.functions|
      invariant forall j :: 0 <= j < i ==> WordLen(m.functions[j].params) <= 0xFF
    {
      if WordLen(m.functions[i].params) > 0xFF { return Err(Text.FunctionParametersTooLarge), s; }
    }
    if |decls| != |m.functions| { return Err(Text.InvalidCodeSectionFunctionCount), s; }
    var index := FuncIndex(l, |l.modules|, m);
    ghost var was := code.Contents();
    LoadedOptions(s, was, options);
    var fcs :- ReadCodeSection(index, options, code, decls);
    MirrorsCount(l, s);
    forall x | 0 <= x < |index| ensures RefReady(s, decls, index[x]) {
      IndexReady(l, s, m, decls, x);
    }
    ReadModuleKeeps(s, was, options, index, decls);
    ghost var fs := Bodies.ReadAll(index, options, was, decls).value.1;
    StillMirrors(l, s, m, fs);
    s' := WithModule(s, index, fs);
    r := Ok(fcs);
  }

  lemma MirrorsCount(l: Linkage, s: Store)
    requires LinkOk(l) && Mirrors(l, s)
    ensures |s.modules| == |l.modules|
  {
  }
}
