/** Import resolution (src/imports.rs, src/module.rs, src/store.rs): every import is resolved once, to
    the module or host that defines it, so import chains are one hop long. */
module Linking {
  import opened Values
  import opened Wasm

  datatype GlobalType = GlobalType(ty: ValType, mutable: bool)

  datatype Limits = Limits(min: nat, max: Option<nat>) {
    /** `Limit::matches`. */
    predicate Matches(other: Limits) {
      && min >= other.min
      && (other.max.Some? ==> max.Some? && max.value <= other.max.value)
    }
  }

  datatype MemType = MemType(limits: Limits, pageSize: nat) {
    predicate Matches(other: MemType) { limits.Matches(other.limits) && pageSize == other.pageSize }
  }

  /** A symbol of a Wasm module (`WasmRef`) or of a host module (`HostRef`). */
  datatype Place = Defined(module_: U8, index: Word) | InHost(module_: U8, index: Word)

  /** `Import`: the four kinds, each in a Wasm module or in a host. */
  datatype Import = Func(at: Place) | Table(at: Place) | Memory(at: Place) | Global(at: Place)

  /** `Ref`: defined in the module at hand, or elsewhere. */
  datatype Ref = Here(index: Word) | Elsewhere(at: Place)

  datatype Kind<T> = Owned(ty: T) | Imported(module_: U8) | ImportedHost(module_: U8, index: Word)

  datatype ExportDesc = FuncExport(x: nat) | TableExport(x: nat) | MemExport(x: nat) | GlobalExport(x: nat)

  datatype Export = Export(name: string, desc: ExportDesc)

  datatype LinkModule = LinkModule(
    name: string, imports: seq<Import>, functions: seq<FuncSig>, globals: seq<GlobalType>,
    table: Option<Kind<Limits>>, memory: Option<Kind<MemType>>, exports: seq<Export>)

  datatype Symbol<T> = Symbol(name: string, value: T)

  datatype HostModule = HostModule(
    name: string, functions: seq<Symbol<FuncSig>>, globals: seq<Symbol<GlobalType>>,
    tables: seq<Symbol<Limits>>, memories: seq<Symbol<MemType>>)

  /** What is loaded so far. */
  datatype Linkage = Linkage(modules: seq<LinkModule>, hosts: seq<HostModule>)

  datatype LinkError =
    | FunctionImportNotFound | FunctionImportTypeMismatch | FunctionIdxOutOfRange
    | GlobalImportNotFound | GlobalImportTypeMismatch | GlobalNotMutable | GlobalIdxOutOfRange
    | TableImportNotFound | TableImportTypeMismatch | TableImportIncompatibleSize | TableNotDefined | InvalidTableIndex
    | MemoryImportNotFound | MemoryImportTypeMismatch | MemoryImportTooLarge | MemoryNotDefined | InvalidMemIndex
    | MultipleMemories | MultipleTables | OutOfMemory

  // ----- index spaces -----

  /** The places of the imports of one kind, in order. */
  function Places(imports: seq<Import>, func: bool): seq<Place> {
    if imports == [] then []
    else
      var i := imports[0];
      (if (func && i.Func?) || (!func && i.Global?) then [i.at] else []) + Places(imports[1..], func)
  }

  /** Entry `x` of an index space: the imports come first, then the definitions. */
  function RefAt(places: seq<Place>, defined: nat, x: nat): Option<Ref> {
    if x < |places| then Some(Elsewhere(places[x]))
    else if x - |places| < defined && x - |places| < 0x1_0000 then Some(Here(x - |places|))
    else None
  }

  function FuncRefAt(m: LinkModule, x: nat): Option<Ref> { RefAt(Places(m.imports, true), |m.functions|, x) }

  function GlobalRefAt(m: LinkModule, x: nat): Option<Ref> { RefAt(Places(m.imports, false), |m.globals|, x) }

  /** `get_func_ref` and `get_global_ref`: count the imports of the kind until the index is met. */
  method GetRef(m: LinkModule, func: bool, x: nat) returns (r: Option<Ref>)
    requires |m.functions| <= 0xFFFF && |m.globals| <= 0xFFFF
    ensures r == if func then FuncRefAt(m, x) else GlobalRefAt(m, x)
  {
    hide Places;
    var n: nat := 0;
    ghost var places := Places(m.imports, func);
    assert m.imports[0..] == m.imports && places[0..] == places;
    for i := 0 to |m.imports|
      invariant n <= x && n <= |places| && places[n..] == Places(m.imports[i..], func)
    {
      var imp := m.imports[i];
      NextPlace(m.imports, func, i);
      if (func && imp.Func?) || (!func && imp.Global?) {
        NextIs(places, n, imp.at, Places(m.imports[i + 1..], func));
        if x == n { return Some(Elsewhere(imp.at)); }
        n := n + 1;
      }
    }
    NoPlace(m.imports, func);
    assert |places| == n;
    var k := x - n;
    var defined := if func then |m.functions| else |m.globals|;
    r := if k >= defined then None else Some(Here(k));
  }

  lemma NextPlace(imports: seq<Import>, func: bool, i: nat)
    requires i < |imports|
    ensures var imp := imports[i];
            Places(imports[i..], func) ==
            (if (func && imp.Func?) || (!func && imp.Global?) then [imp.at] else []) + Places(imports[i + 1..], func)
  {
    assert imports[i..][0] == imports[i] && imports[i..][1..] == imports[i + 1..];
  }

  lemma NextIs(places: seq<Place>, n: nat, p: Place, rest: seq<Place>)
    requires n <= |places| && places[n..] == [p] + rest
    ensures n < |places| && places[n] == p && places[n + 1..] == rest
  {
    assert places[n] == places[n..][0];
    assert places[n + 1..] == places[n..][1..];
  }

  lemma NoPlace(imports: seq<Import>, func: bool)
    ensures Places(imports[|imports|..], func) == []
  {
  }

  // ----- the invariant -----

  predicate FuncPlaceOk(l: Linkage, k: nat, p: Place) {
    match p
    case Defined(m, i) => m < k <= |l.modules| && i < |l.modules[m].functions|
    case InHost(h, i) => h < |l.hosts| && i < |l.hosts[h].functions|
  }

  predicate GlobalPlaceOk(l: Linkage, k: nat, p: Place) {
    match p
    case Defined(m, i) => m < k <= |l.modules| && i < |l.modules[m].globals|
    case InHost(h, i) => h < |l.hosts| && i < |l.hosts[h].globals|
  }

  predicate TablePlaceOk(l: Linkage, k: nat, p: Place) {
    match p
    case Defined(m, _) => m < k <= |l.modules| && l.modules[m].table.Some? && l.modules[m].table.value.Owned?
    case InHost(h, i) => h < |l.hosts| && i < |l.hosts[h].tables|
  }

  predicate MemoryPlaceOk(l: Linkage, k: nat, p: Place) {
    match p
    case Defined(m, _) => m < k <= |l.modules| && l.modules[m].memory.Some? && l.modules[m].memory.value.Owned?
    case InHost(h, i) => h < |l.hosts| && i < |l.hosts[h].memories|
  }

  /** The import of a module with `k` modules before it names an earlier module, and an entry which
      that module itself defines. */
  predicate ImportOk(l: Linkage, k: nat, i: Import) {
    match i
    case Func(p) => FuncPlaceOk(l, k, p)
    case Global(p) => GlobalPlaceOk(l, k, p)
    case Table(p) => TablePlaceOk(l, k, p)
    case Memory(p) => MemoryPlaceOk(l, k, p)
  }

  function PlaceOf<T>(kind: Kind<T>, self: U8): Place {
    match kind
    case Owned(_) => Defined(self, 0)
    case Imported(m) => Defined(m, 0)
    case ImportedHost(h, i) => InHost(h, i)
  }

  predicate ModuleOk(l: Linkage, k: nat, m: LinkModule) {
    && |m.functions| <= 0xFFFF && |m.globals| <= 0xFFFF
    && (forall i :: 0 <= i < |m.imports| ==> ImportOk(l, k, m.imports[i]))
    && (m.table.Some? && !m.table.value.Owned? ==> TablePlaceOk(l, k, PlaceOf(m.table.value, 0)))
    && (m.memory.Some? && !m.memory.value.Owned? ==> MemoryPlaceOk(l, k, PlaceOf(m.memory.value, 0)))
  }

  /** At most 256 modules and host modules, whose entries have 16-bit indices; all imports resolved. */
  predicate LinkOk(l: Linkage) {
    && |l.modules| <= 0x100 && |l.hosts| <= 0x100
    && (forall h :: 0 <= h < |l.hosts| ==> HostSized(l.hosts[h]))
    && forall k :: 0 <= k < |l.modules| ==> ModuleOk(l, k, l.modules[k])
  }

  predicate HostSized(h: HostModule) {
    |h.functions| <= 0x1_0000 && |h.globals| <= 0x1_0000 && |h.tables| <= 0x1_0000 && |h.memories| <= 0x1_0000
  }

  lemma {:induction false} PlacesOk(l: Linkage, k: nat, imports: seq<Import>, func: bool)
    requires forall i :: 0 <= i < |imports| ==> ImportOk(l, k, imports[i])
    ensures forall p :: p in Places(imports, func) ==> if func then FuncPlaceOk(l, k, p) else GlobalPlaceOk(l, k, p)
    decreases |imports|
  {
    if imports != [] {
      assert ImportOk(l, k, imports[0]);
      PlacesOk(l, k, imports[1..], func);
    }
  }

  // ----- searching -----

  function FindSymbol<T>(symbols: seq<Symbol<T>>, name: string, from: nat): (r: Option<nat>)
    requires from <= |symbols|
    decreases |symbols| - from
    ensures r.Some? ==> from <= r.value < |symbols| && symbols[r.value].name == name
  {
    if from == |symbols| then None
    else if symbols[from].name == name then Some(from)
    else FindSymbol(symbols, name, from + 1)
  }

  /** The first host module of that name which has such a symbol. */
  function FindInHosts<T>(
    hosts: seq<HostModule>, symbols: HostModule -> seq<Symbol<T>>, module_: string, name: string, from: nat):
    (r: Option<(nat, nat)>)
    requires from <= |hosts|
    decreases |hosts| - from
    ensures r.Some? ==> r.value.0 < |hosts| && r.value.1 < |symbols(hosts[r.value.0])|
  {
    if from == |hosts| then None
    else
      var i := if hosts[from].name == module_ then FindSymbol(symbols(hosts[from]), name, 0) else None;
      if i.Some? then Some((from, i.value)) else FindInHosts(hosts, symbols, module_, name, from + 1)
  }

  function FindName(exports: seq<Export>, name: string, from: nat): (r: Option<nat>)
    requires from <= |exports|
    decreases |exports| - from
    ensures r.Some? ==> r.value < |exports|
  {
    if from == |exports| then None
    else if exports[from].name == name then Some(from)
    else FindName(exports, name, from + 1)
  }

  /** The first Wasm module of that name which exports that name, of whatever kind. */
  function FindExport(
    modules: seq<LinkModule>, module_: string, name: string, from: nat): (r: Option<(nat, ExportDesc)>)
    requires from <= |modules|
    decreases |modules| - from
    ensures r.Some? ==> r.value.0 < |modules|
  {
    if from == |modules| then None
    else
      var i := if modules[from].name == module_ then FindName(modules[from].exports, name, 0) else None;
      if i.Some? then Some((from, modules[from].exports[i.value].desc))
      else FindExport(modules, module_, name, from + 1)
  }

  /** The place an entry of module `m` comes from. */
  function Resolved(m: nat, r: Ref): Place
    requires m < 0x100
  {
    match r
    case Here(i) => Defined(m, i)
    case Elsewhere(p) => p
  }

  function SigAt(l: Linkage, p: Place): Option<FuncSig> {
    match p
    case Defined(m, i) =>
      if m < |l.modules| && i < |l.modules[m].functions| then Some(l.modules[m].functions[i]) else None
    case InHost(h, i) =>
      if h < |l.hosts| && i < |l.hosts[h].functions| then Some(l.hosts[h].functions[i].value) else None
  }

  function GlobalAt(l: Linkage, p: Place): Option<GlobalType> {
    match p
    case Defined(m, i) => if m < |l.modules| && i < |l.modules[m].globals| then Some(l.modules[m].globals[i]) else None
    case InHost(h, i) => if h < |l.hosts| && i < |l.hosts[h].globals| then Some(l.hosts[h].globals[i].value) else None
  }

  // ----- linking -----

  function CheckSig(l: Linkage, p: Place, want: FuncSig): Result<Import, LinkError> {
    if SigAt(l, p) == Some(want) then Ok(Import.Func(p)) else Err(FunctionImportTypeMismatch)
  }

  /** `link_function`. */
  function LinkFunction(l: Linkage, module_: string, name: string, want: FuncSig): Result<Import, LinkError>
    requires LinkOk(l)
  {
    var h := FindInHosts(l.hosts, (m: HostModule) => m.functions, module_, name, 0);
    if h.Some? then
      assert HostSized(l.hosts[h.value.0]);
      CheckSig(l, InHost(h.value.0, h.value.1), want)
    else
      var e := FindExport(l.modules, module_, name, 0);
      if e.None? then Err(FunctionImportNotFound)
      else if !e.value.1.FuncExport? then Err(FunctionImportTypeMismatch)
      else
        var r := FuncRefAt(l.modules[e.value.0], e.value.1.x);
        if r.None? then Err(FunctionIdxOutOfRange) else CheckSig(l, Resolved(e.value.0, r.value), want)
  }

  function CheckGlobal(l: Linkage, p: Place, want: GlobalType): Result<Import, LinkError> {
    var g := GlobalAt(l, p);
    if g.None? || g.value.ty != want.ty then Err(GlobalImportTypeMismatch)
    else if g.value.mutable != want.mutable then Err(GlobalNotMutable)
    else Ok(Global(p))
  }

  /** `link_global`. */
  function LinkGlobal(l: Linkage, module_: string, name: string, want: GlobalType): Result<Import, LinkError>
    requires LinkOk(l)
  {
    var h := FindInHosts(l.hosts, (m: HostModule) => m.globals, module_, name, 0);
    if h.Some? then
      assert HostSized(l.hosts[h.value.0]);
      CheckGlobal(l, InHost(h.value.0, h.value.1), want)
    else
      var e := FindExport(l.modules, module_, name, 0);
      if e.None? then Err(GlobalImportNotFound)
      else if !e.value.1.GlobalExport? then Err(GlobalImportTypeMismatch)
      else
        var r := GlobalRefAt(l.modules[e.value.0], e.value.1.x);
        if r.None? then Err(GlobalIdxOutOfRange) else CheckGlobal(l, Resolved(e.value.0, r.value), want)
  }

  /** The limits of the table at a resolved place; the module named there owns it. */
  function TableAt(l: Linkage, p: Place): Limits
    requires TablePlaceOk(l, |l.modules|, p)
  {
    match p
    case Defined(m, _) => l.modules[m].table.value.ty
    case InHost(h, i) => l.hosts[h].tables[i].value
  }

  function MemoryAt(l: Linkage, p: Place): MemType
    requires MemoryPlaceOk(l, |l.modules|, p)
  {
    match p
    case Defined(m, _) => l.modules[m].memory.value.ty
    case InHost(h, i) => l.hosts[h].memories[i].value
  }

  lemma TableOwner(l: Linkage, k: nat)
    requires LinkOk(l) && k < |l.modules| && l.modules[k].table.Some?
    ensures TablePlaceOk(l, |l.modules|, PlaceOf(l.modules[k].table.value, k))
  {
    assert ModuleOk(l, k, l.modules[k]);
  }

  lemma MemoryOwner(l: Linkage, k: nat)
    requires LinkOk(l) && k < |l.modules| && l.modules[k].memory.Some?
    ensures MemoryPlaceOk(l, |l.modules|, PlaceOf(l.modules[k].memory.value, k))
  {
    assert ModuleOk(l, k, l.modules[k]);
  }

  /** `link_table`; a table that the exporting module imports is linked to its owner. */
  function LinkTable(l: Linkage, module_: string, name: string, want: Limits): Result<Import, LinkError>
    requires LinkOk(l)
  {
    var h := FindInHosts(l.hosts, (m: HostModule) => m.tables, module_, name, 0);
    if h.Some? then
      assert HostSized(l.hosts[h.value.0]);
      if !l.hosts[h.value.0].tables[h.value.1].value.Matches(want) then Err(TableImportIncompatibleSize)
      else Ok(Table(InHost(h.value.0, h.value.1)))
    else
      var e := FindExport(l.modules, module_, name, 0);
      if e.None? then Err(TableImportNotFound)
      else if !e.value.1.TableExport? then Err(TableImportTypeMismatch)
      else if e.value.1.x > 0 then Err(InvalidTableIndex)
      else
        var t := l.modules[e.value.0].table;
        if t.None? then Err(TableNotDefined)
        else
          TableOwner(l, e.value.0);
          var p := PlaceOf(t.value, e.value.0);
          if TableAt(l, p).Matches(want) then Ok(Table(p)) else Err(TableImportIncompatibleSize)
  }

  /** `link_memory`. */
  function LinkMemory(l: Linkage, module_: string, name: string, want: MemType): Result<Import, LinkError>
    requires LinkOk(l)
  {
    var h := FindInHosts(l.hosts, (m: HostModule) => m.memories, module_, name, 0);
    if h.Some? then
      assert HostSized(l.hosts[h.value.0]);
      if l.hosts[h.value.0].memories[h.value.1].value.Matches(want) then Ok(Memory(InHost(h.value.0, h.value.1)))
      else Err(MemoryImportTooLarge)
    else
      var e := FindExport(l.modules, module_, name, 0);
      if e.None? then Err(MemoryImportNotFound)
      else if !e.value.1.MemExport? then Err(MemoryImportTypeMismatch)
      else if e.value.1.x > 0 then Err(InvalidMemIndex)
      else
        var t := l.modules[e.value.0].memory;
        if t.None? then Err(MemoryNotDefined)
        else
          MemoryOwner(l, e.value.0);
          var p := PlaceOf(t.value, e.value.0);
          if MemoryAt(l, p).Matches(want) then Ok(Memory(p)) else Err(MemoryImportTooLarge)
  }

  /** What a module asks for. */
  datatype ImportDesc =
    | WantFunc(sig: FuncSig) | WantTable(limits: Limits) | WantMemory(mem: MemType) | WantGlobal(global: GlobalType)

  datatype ImportDecl = ImportDecl(module_: string, name: string, desc: ImportDesc)

  function Link(l: Linkage, d: ImportDecl): Result<Import, LinkError>
    requires LinkOk(l)
  {
    match d.desc
    case WantFunc(t) => LinkFunction(l, d.module_, d.name, t)
    case WantTable(t) => LinkTable(l, d.module_, d.name, t)
    case WantMemory(t) => LinkMemory(l, d.module_, d.name, t)
    case WantGlobal(t) => LinkGlobal(l, d.module_, d.name, t)
  }

  /** What was asked for is what the import leads to. */
  predicate Satisfies(l: Linkage, i: Import, d: ImportDesc) {
    match d
    case WantFunc(t) => i.Func? && SigAt(l, i.at) == Some(t)
    case WantGlobal(t) => i.Global? && GlobalAt(l, i.at) == Some(t)
    case WantTable(t) => i.Table? && TablePlaceOk(l, |l.modules|, i.at) && TableAt(l, i.at).Matches(t)
    case WantMemory(t) => i.Memory? && MemoryPlaceOk(l, |l.modules|, i.at) && MemoryAt(l, i.at).Matches(t)
  }

  lemma FuncResolves(l: Linkage, k: nat, x: nat)
    requires LinkOk(l) && k < |l.modules| && FuncRefAt(l.modules[k], x).Some?
    ensures FuncPlaceOk(l, |l.modules|, Resolved(k, FuncRefAt(l.modules[k], x).value))
  {
    var m := l.modules[k];
    assert ModuleOk(l, k, m);
    PlacesOk(l, k, m.imports, true);
    var places := Places(m.imports, true);
    if x < |places| { assert places[x] in places && FuncPlaceOk(l, k, places[x]); }
  }

  lemma GlobalResolves(l: Linkage, k: nat, x: nat)
    requires LinkOk(l) && k < |l.modules| && GlobalRefAt(l.modules[k], x).Some?
    ensures GlobalPlaceOk(l, |l.modules|, Resolved(k, GlobalRefAt(l.modules[k], x).value))
  {
    var m := l.modules[k];
    assert ModuleOk(l, k, m);
    PlacesOk(l, k, m.imports, false);
    var places := Places(m.imports, false);
    if x < |places| { assert places[x] in places && GlobalPlaceOk(l, k, places[x]); }
  }

  /** A successful link is one hop long: it names an entry which the named module or host itself
      defines, with the type asked for. */
  lemma LinkResolves(l: Linkage, d: ImportDecl)
    requires LinkOk(l) && Link(l, d).Ok?
    ensures ImportOk(l, |l.modules|, Link(l, d).value) && Satisfies(l, Link(l, d).value, d.desc)
  {
    hide ModuleOk;
    match d.desc
    case WantFunc(_) =>
      var e := FindExport(l.modules, d.module_, d.name, 0);
      if e.Some? && e.value.1.FuncExport? && FuncRefAt(l.modules[e.value.0], e.value.1.x).Some? {
        FuncResolves(l, e.value.0, e.value.1.x);
      }
    case WantGlobal(_) =>
      var e := FindExport(l.modules, d.module_, d.name, 0);
      if e.Some? && e.value.1.GlobalExport? && GlobalRefAt(l.modules[e.value.0], e.value.1.x).Some? {
        GlobalResolves(l, e.value.0, e.value.1.x);
      }
    case WantTable(_) =>
      var e := FindExport(l.modules, d.module_, d.name, 0);
      if e.Some? && l.modules[e.value.0].table.Some? { TableOwner(l, e.value.0); }
    case WantMemory(_) =>
      var e := FindExport(l.modules, d.module_, d.name, 0);
      if e.Some? && l.modules[e.value.0].memory.Some? { MemoryOwner(l, e.value.0); }
  }

  // ----- loading a module (src/module.rs, `read_section`) -----

  /** A module while it is read; `l` is what was loaded before it. */
  class ModuleReader {
    const l: Linkage
    const name: string
    var imports: seq<Import>
    var functions: seq<FuncSig>
    var globals: seq<GlobalType>
    var table: Option<Kind<Limits>>
    var memory: Option<Kind<MemType>>
    var exports: seq<Export>

    ghost predicate Valid()
      reads this
    {
      LinkOk(l) && ModuleOk(l, |l.modules|, Finished())
    }

    function Finished(): LinkModule
      reads this
    {
      LinkModule(name, imports, functions, globals, table, memory, exports)
    }

    constructor (l: Linkage, name: string)
      requires LinkOk(l)
      ensures Valid() && Finished() == LinkModule(name, [], [], [], None, None, []) && this.l == l
    {
      this.l, this.name := l, name;
      imports, functions, globals, exports := [], [], [], [];
      table, memory := None, None;
    }

    /** The import section: link every import, then note an imported memory or table. Each import that
        results satisfies its declaration, and at most one memory and one table is imported. */
    method ImportSection(decls: seq<ImportDecl>) returns (r: Result<(), LinkError>)
      requires Valid() && table.None? && memory.None?
      modifies this
      ensures r.Ok? ==>
                && Valid() && |imports| == |decls|
                && (forall i :: 0 <= i < |decls| ==>
                      Link(l, decls[i]) == Result.Ok(imports[i]) && Satisfies(l, imports[i], decls[i].desc))
                && Noted(|imports|)
      ensures r.Ok? ==> functions == old(functions) && globals == old(globals) && exports == old(exports)
      ensures forall i :: FirstFails(decls, i) ==> r == Result.Err(Link(l, decls[i]).error)
      ensures (forall i :: !FirstFails(decls, i)) ==>
                && |imports| == |decls| && (forall i :: 0 <= i < |decls| ==> Link(l, decls[i]) == Result.Ok(imports[i]))
                && (r.Err? <==> |MemoryImports(imports)| > 1 || |TableImports(imports)| > 1)
                && (r.Err? ==> exists i :: 0 <= i < |imports| && SecondAt(imports, i, r.error))
    {
      var linked :- LinkAll(decls);
      imports := linked;
      hide Link, Satisfies;
      r := NoteAll();
    }

    /** The loop that notes imported memories and tables. */
    method NoteAll() returns (r: Result<(), LinkError>)
      requires Valid() && table.None? && memory.None?
      modifies this`memory, this`table
      ensures r.Ok? ==> Valid() && Noted(|imports|)
      ensures r.Err? <==> |MemoryImports(imports)| > 1 || |TableImports(imports)| > 1
      ensures r.Err? ==> exists i :: 0 <= i < |imports| && SecondAt(imports, i, r.error)
    {
      hide ModuleOk, LinkOk, MemoryImports, TableImports, PlaceOf, KindOf, Whole;
      NoImports(imports);
      for i := 0 to |imports|
        invariant Valid() && Noted(i)
      {
        OneMoreImport(imports, i);
        var noted := NoteImport(i);
        if noted.Err? {
          assert SecondAt(imports, i, noted.error);
          return noted;
        }
      }
      assert imports[..|imports|] == imports;
      r := Ok(());
    }

    /** The module's memory and table are those among its first `i` imports. */
    ghost predicate Noted(i: nat)
      requires i <= |imports|
      reads this
    {
      && MemoryImports(imports[..i]) == (if memory.Some? then [PlaceOf(memory.value, 0)] else [])
      && TableImports(imports[..i]) == (if table.Some? then [PlaceOf(table.value, 0)] else [])
    }

    /** An import of a memory or table becomes the module's. */
    method NoteImport(i: nat) returns (r: Result<(), LinkError>)
      requires Valid() && i < |imports|
      modifies this`memory, this`table
      ensures r.Ok? ==> Valid()
      ensures r.Err? ==>
                || (imports[i].Memory? && old(memory).Some? && r.error == MultipleMemories)
                || (imports[i].Table? && old(table).Some? && r.error == MultipleTables)
      ensures r.Ok? && imports[i].Memory? ==>
                old(memory).None? && memory == Some(KindOf(imports[i].at)) && table == old(table)
      ensures r.Ok? && imports[i].Table? ==>
                old(table).None? && table == Some(KindOf(imports[i].at)) && memory == old(memory)
      ensures r.Ok? && !imports[i].Memory? && !imports[i].Table? ==> memory == old(memory) && table == old(table)
      ensures PlaceOf(KindOf<Limits>(imports[i].at), 0) == PlaceOf(KindOf<MemType>(imports[i].at), 0)
          == Whole(imports[i].at)
    {
      var imp := imports[i];
      assert ImportOk(l, |l.modules|, imp);
      if imp.Memory? {
        if memory.Some? { return Err(MultipleMemories); }
        memory := Some(KindOf(imp.at));
      } else if imp.Table? {
        if table.Some? { return Err(MultipleTables); }
        table := Some(KindOf(imp.at));
      }
      r := Ok(());
    }

    /** Import `i` is the first that cannot be linked. */
    ghost predicate FirstFails(decls: seq<ImportDecl>, i: int)
      requires LinkOk(l)
    {
      && 0 <= i < |decls| && Link(l, decls[i]).Err?
      && forall j :: 0 <= j < i ==> Link(l, decls[j]).Ok?
    }

    method LinkAll(decls: seq<ImportDecl>) returns (r: Result<seq<Import>, LinkError>)
      requires LinkOk(l)
      ensures r.Err? <==> exists i :: FirstFails(decls, i)
      ensures forall i :: FirstFails(decls, i) ==> r == Result.Err(Link(l, decls[i]).error)
      ensures r.Ok? ==>
                && |r.value| == |decls|
                && forall i :: 0 <= i < |decls| ==>
                     && Link(l, decls[i]) == Result.Ok(r.value[i]) && ImportOk(l, |l.modules|, r.value[i])
                     && Satisfies(l, r.value[i], decls[i].desc)
    {
      var out: seq<Import> := [];
      var i := 0;
      while i < |decls|
        invariant 0 <= i <= |decls| && |out| == i
        invariant forall j :: 0 <= j < i ==>
                     && Link(l, decls[j]) == Result.Ok(out[j]) && ImportOk(l, |l.modules|, out[j])
                     && Satisfies(l, out[j], decls[j].desc)
      {
        var imp := Link(l, decls[i]);
        if imp.Err? {
          assert FirstFails(decls, i);
          return Err(imp.error);
        }
        LinkResolves(l, decls[i]);
        out := out + [imp.value];
        i := i + 1;
      }
      r := Ok(out);
    }

    /** The function and global sections, once their types are read. */
    method DefinitionSections(fs: seq<FuncSig>, gs: seq<GlobalType>)
      requires Valid() && |fs| <= 0xFFFF && |gs| <= 0xFFFF
      modifies this`functions, this`globals
      ensures Valid() && Finished() == old(Finished()).(functions := fs, globals := gs)
    {
      functions, globals := fs, gs;
    }

    method TableSection(t: Option<Limits>) returns (r: Result<(), LinkError>)
      requires Valid()
      modifies this`table
      ensures Valid() && (r.Err? <==> old(table).Some?)
      ensures r.Ok? ==> table == if t.None? then None else Some(Owned(t.value))
      ensures r.Err? ==> r.error == MultipleTables && table == old(table)
    {
      if table.Some? { return Err(MultipleTables); }
      table := if t.None? then None else Some(Owned(t.value));
      r := Ok(());
    }

    /** The memory section. An empty one leaves the module without memory, even if it imported one. */
    method MemorySection(t: Option<MemType>) returns (r: Result<(), LinkError>)
      requires Valid()
      modifies this`memory
      ensures Valid() && (r.Err? <==> t.Some? && old(memory).Some?)
      ensures r.Ok? ==> memory == if t.None? then None else Some(Owned(t.value))
      ensures r.Err? ==> r.error == MultipleMemories && memory == old(memory)
    {
      if t.None? {
        memory := None;
      } else if memory.Some? {
        return Err(MultipleMemories);
      } else {
        memory := Some(Owned(t.value));
      }
      r := Ok(());
    }
  }

  /** How a module refers to a table or memory it imports. */
  function KindOf<T>(p: Place): Kind<T> {
    match p
    case Defined(m, _) => Imported(m)
    case InHost(h, i) => ImportedHost(h, i)
  }

  /** The places of the imported memories, with the only index a memory can have. */
  function MemoryImports(imports: seq<Import>): seq<Place> {
    if imports == [] then []
    else
      var (front, i) := (imports[..|imports| - 1], imports[|imports| - 1]);
      MemoryImports(front) + (if i.Memory? then [Whole(i.at)] else [])
  }

  function TableImports(imports: seq<Import>): seq<Place> {
    if imports == [] then []
    else
      var (front, i) := (imports[..|imports| - 1], imports[|imports| - 1]);
      TableImports(front) + (if i.Table? then [Whole(i.at)] else [])
  }

  /** Import `i` is the first to bring a second memory or a second table. */
  predicate SecondAt(imports: seq<Import>, i: nat, e: LinkError)
    requires i < |imports|
  {
    && |MemoryImports(imports[..i])| <= 1 && |TableImports(imports[..i])| <= 1
    && if e == MultipleMemories then |MemoryImports(imports[..i + 1])| == 2
       else e == MultipleTables && |TableImports(imports[..i + 1])| == 2
  }

  lemma NoImports(imports: seq<Import>)
    ensures MemoryImports(imports[..0]) == [] && TableImports(imports[..0]) == []
  {
  }

  lemma OneMoreImport(imports: seq<Import>, i: nat)
    requires i < |imports|
    ensures MemoryImports(imports[..i + 1])
         == MemoryImports(imports[..i]) + (if imports[i].Memory? then [Whole(imports[i].at)] else [])
    ensures TableImports(imports[..i + 1])
         == TableImports(imports[..i]) + (if imports[i].Table? then [Whole(imports[i].at)] else [])
    ensures |MemoryImports(imports[..i + 1])| <= |MemoryImports(imports)|
    ensures |TableImports(imports[..i + 1])| <= |TableImports(imports)|
  {
    ImportsGrow(imports, i + 1);
    assert imports[..i + 1][..i] == imports[..i] && imports[..i + 1][i] == imports[i];
  }

  lemma {:induction false} ImportsGrow(imports: seq<Import>, i: nat)
    requires i <= |imports|
    ensures |MemoryImports(imports[..i])| <= |MemoryImports(imports)|
    ensures |TableImports(imports[..i])| <= |TableImports(imports)|
    decreases |imports|
  {
    if i == |imports| {
      assert imports[..i] == imports;
    } else {
      var front := imports[..|imports| - 1];
      ImportsGrow(front, i);
      assert front[..i] == imports[..i];
    }
  }

  function Whole(p: Place): Place { if p.Defined? then Defined(p.module_, 0) else p }

  // ----- the store -----

  lemma PlacesLater(l: Linkage, m: LinkModule, k: nat, i: Import)
    requires ImportOk(l, k, i)
    ensures ImportOk(l.(modules := l.modules + [m]), k, i)
  {
  }

  /** An earlier module is as well linked in a larger store. */
  lemma ModuleLater(l: Linkage, m: LinkModule, k: nat, n: LinkModule)
    requires ModuleOk(l, k, n)
    ensures ModuleOk(l.(modules := l.modules + [m]), k, n)
  {
    var l' := l.(modules := l.modules + [m]);
    forall i | 0 <= i < |n.imports| ensures ImportOk(l', k, n.imports[i]) {
      PlacesLater(l, m, k, n.imports[i]);
    }
    if n.table.Some? && !n.table.value.Owned? { PlacesLater(l, m, k, Import.Table(PlaceOf(n.table.value, 0))); }
    if n.memory.Some? && !n.memory.value.Owned? { PlacesLater(l, m, k, Import.Memory(PlaceOf(n.memory.value, 0))); }
  }

  /** Adding a module read against the store keeps every import resolved. */
  lemma PushKeeps(l: Linkage, m: LinkModule)
    requires LinkOk(l) && ModuleOk(l, |l.modules|, m) && |l.modules| < 0x100
    ensures LinkOk(l.(modules := l.modules + [m]))
  {
    hide ModuleOk;
    var l' := l.(modules := l.modules + [m]);
    ModuleLater(l, m, |l.modules|, m);
    forall k | 0 <= k < |l'.modules| ensures ModuleOk(l', k, l'.modules[k]) {
      if k < |l.modules| { ModuleLater(l, m, k, l.modules[k]); }
    }
  }

  /** Taking the last module away again keeps it too: no other module refers to it. */
  lemma PopKeeps(l: Linkage)
    requires LinkOk(l) && l.modules != []
    ensures LinkOk(l.(modules := l.modules[..|l.modules| - 1]))
  {
    var n := |l.modules| - 1;
    var l' := l.(modules := l.modules[..n]);
    forall k | 0 <= k < n ensures ModuleOk(l', k, l'.modules[k]) {
      var m := l.modules[k];
      assert ModuleOk(l, k, m);
      forall i | 0 <= i < |m.imports| ensures ImportOk(l', k, m.imports[i]) {
        assert ImportOk(l, k, m.imports[i]);
      }
    }
  }

  /** What an engine finds behind a module's memory or table. */
  datatype Owner = Nothing | OwnedBy(module_: nat) | HostOwned(module_: nat, index: nat)

  class ModuleStore {
    var linkage: Linkage
    const capacity: nat

    ghost predicate Valid()
      reads this
    {
      LinkOk(linkage) && |linkage.modules| <= capacity <= 0x100
    }

    constructor (capacity: nat, hosts: seq<HostModule>)
      requires capacity <= 0x100 && |hosts| <= 0x100
      requires forall h :: 0 <= h < |hosts| ==> HostSized(hosts[h])
      ensures Valid() && linkage == Linkage([], hosts)
    {
      this.capacity, linkage := capacity, Linkage([], hosts);
    }

    /** `push_module`. */
    method PushModule(m: LinkModule) returns (r: Result<nat, LinkError>)
      requires Valid() && ModuleOk(linkage, |linkage.modules|, m)
      modifies this
      ensures Valid() && (r.Err? <==> |old(linkage).modules| == capacity)
      ensures r.Err? ==> r.error == OutOfMemory && linkage == old(linkage)
      ensures r.Ok? ==>
                r.value == |old(linkage).modules|
                && linkage == old(linkage).(modules := old(linkage).modules + [m])
    {
      if |linkage.modules| == capacity { return Err(OutOfMemory); }
      PushKeeps(linkage, m);
      linkage := linkage.(modules := linkage.modules + [m]);
      r := Ok(|linkage.modules| - 1);
    }

    /** `pop_module`. */
    method PopModule() returns (m: Option<LinkModule>)
      requires Valid()
      modifies this
      ensures Valid()
      ensures old(linkage).modules == [] ==> m.None? && linkage == old(linkage)
      ensures old(linkage).modules != [] ==>
                var n := |old(linkage).modules| - 1;
                m == Some(old(linkage).modules[n]) && linkage == old(linkage).(modules := old(linkage).modules[..n])
    {
      var n := |linkage.modules|;
      if n == 0 { return None; }
      PopKeeps(linkage);
      m := Some(linkage.modules[n - 1]);
      linkage := linkage.(modules := linkage.modules[..n - 1]);
    }

    /** `get_memory`: the module named by an imported memory owns it. */
    method GetMemory(k: nat) returns (owner: Owner)
      requires Valid() && k < |linkage.modules|
      ensures var m := linkage.modules[k].memory;
              match m
              case None => owner == Nothing
              case Some(kind) =>
                owner == OwnerAt(PlaceOf(kind, k)) && MemoryPlaceOk(linkage, |linkage.modules|, PlaceOf(kind, k))
    {
      var m := linkage.modules[k].memory;
      if m.None? { return Nothing; }
      MemoryOwner(linkage, k);
      match m.value {
        case Owned(_) => owner := OwnedBy(k);
        case Imported(j) =>
          var other := linkage.modules[j].memory;
          if other.None? || !other.value.Owned? { assert false; }
          owner := OwnedBy(j);
        case ImportedHost(h, i) => owner := HostOwned(h, i);
      }
    }

    /** `get_table`. */
    method GetTable(k: nat) returns (owner: Owner)
      requires Valid() && k < |linkage.modules|
      ensures var t := linkage.modules[k].table;
              match t
              case None => owner == Nothing
              case Some(kind) =>
                owner == OwnerAt(PlaceOf(kind, k)) && TablePlaceOk(linkage, |linkage.modules|, PlaceOf(kind, k))
    {
      var t := linkage.modules[k].table;
      if t.None? { return Nothing; }
      TableOwner(linkage, k);
      match t.value {
        case Owned(_) => owner := OwnedBy(k);
        case Imported(j) =>
          var other := linkage.modules[j].table;
          if other.None? || !other.value.Owned? { assert false; }
          owner := OwnedBy(j);
        case ImportedHost(h, i) => owner := HostOwned(h, i);
      }
    }
  }

  function OwnerAt(p: Place): Owner { if p.Defined? then OwnedBy(p.module_) else HostOwned(p.module_, p.index) }

  // ----- what the compiler and the engine see -----

  function RefOf(p: Place): FuncRef {
    if p.Defined? then Extern(p.module_, p.index) else FuncRef.Host(p.module_, p.index)
  }

  /** The function index space of a module, as calls are compiled against it. */
  function FuncIndex(l: Linkage, k: nat, m: LinkModule): seq<FuncEntry>
    requires LinkOk(l) && ModuleOk(l, k, m)
  {
    PlacesOk(l, k, m.imports, true);
    var places := Places(m.imports, true);
    seq(|places|, x requires 0 <= x < |places| =>
          assert places[x] in places; FuncEntry(RefOf(places[x]), SigAt(l, places[x]).value))
    + seq(|m.functions|, i requires 0 <= i < |m.functions| => FuncEntry(Local(i), m.functions[i]))
  }

  /** A store of compiled modules with the signatures and index spaces of the linked ones. */
  predicate Mirrors(l: Linkage, s: Store)
    requires LinkOk(l)
  {
    && |s.modules| == |l.modules| && |s.hosts| == |l.hosts|
    && (forall h :: 0 <= h < |l.hosts| ==>
          && |s.hosts[h]| == |l.hosts[h].functions|
          && forall i :: 0 <= i < |s.hosts[h]| ==> s.hosts[h][i] == l.hosts[h].functions[i].value)
    && forall k :: 0 <= k < |l.modules| ==>
         && ModuleOk(l, k, l.modules[k])
         && |s.modules[k].functions| == |l.modules[k].functions|
         && (forall i :: 0 <= i < |s.modules[k].functions| ==>
               s.modules[k].functions[i].sig == l.modules[k].functions[i])
         && s.modules[k].index == FuncIndex(l, k, l.modules[k])
  }

  /** Linking is what the compiled program's index spaces need: every call leads to a function of the
      declared type. */
  lemma LinkedStore(l: Linkage, s: Store)
    requires LinkOk(l) && Mirrors(l, s)
    ensures Linked(s)
  {
    forall k, x | 0 <= k < |s.modules| && 0 <= x < |s.modules[k].index| ensures RefOk(s, k, s.modules[k].index[x]) {
      EntryResolves(l, s, k, x);
    }
  }

  lemma EntryResolves(l: Linkage, s: Store, k: nat, x: nat)
    requires LinkOk(l) && Mirrors(l, s) && k < |s.modules| && x < |s.modules[k].index|
    ensures RefOk(s, k, s.modules[k].index[x])
  {
    var m := l.modules[k];
    assert ModuleOk(l, k, m);
    PlacesOk(l, k, m.imports, true);
    var places := Places(m.imports, true);
    if x < |places| {
      assert places[x] in places && FuncPlaceOk(l, k, places[x]);
    }
  }
}
