/** Which symbol a name leads to (src/imports.rs): host modules come first, then Wasm modules, each in
    order, and in a module the first symbol or export of the name. All of it is said by positions. */
module Names {
  import opened Values
  import opened Wasm
  import opened Linking

  // ----- host modules -----

  /** Symbol `i` of host module `h` has the names asked for. */
  predicate HostHas<T>(
    hosts: seq<HostModule>, symbols: HostModule -> seq<Symbol<T>>, module_: string, name: string, h: int, i: int)
  {
    && 0 <= h < |hosts| && hosts[h].name == module_
    && 0 <= i < |symbols(hosts[h])| && symbols(hosts[h])[i].name == name
  }

  /** The first such module, and there the first such symbol. */
  ghost predicate FirstInHosts<T(!new)>(
    hosts: seq<HostModule>, symbols: HostModule -> seq<Symbol<T>>, module_: string, name: string, h: int, i: int)
  {
    && HostHas(hosts, symbols, module_, name, h, i)
    && forall h', i' :: HostHas(hosts, symbols, module_, name, h', i') ==> h < h' || (h == h' && i <= i')
  }

  lemma {:induction false} SymbolSearch<T>(symbols: seq<Symbol<T>>, name: string, from: nat)
    requires from <= |symbols|
    ensures var r := FindSymbol(symbols, name, from);
            && (r.None? ==> forall i :: from <= i < |symbols| ==> symbols[i].name != name)
            && (r.Some? ==>
                  && from <= r.value < |symbols| && symbols[r.value].name == name
                  && forall i :: from <= i < r.value ==> symbols[i].name != name)
    decreases |symbols| - from
  {
    if from < |symbols| && symbols[from].name != name { SymbolSearch(symbols, name, from + 1); }
  }

  lemma {:induction false} HostSearch<T(!new)>(
    hosts: seq<HostModule>, symbols: HostModule -> seq<Symbol<T>>, module_: string, name: string, from: nat)
    requires from <= |hosts|
    requires forall h, i :: HostHas(hosts, symbols, module_, name, h, i) ==> from <= h
    ensures var r := FindInHosts(hosts, symbols, module_, name, from);
            && (r.None? ==> forall h, i :: !HostHas(hosts, symbols, module_, name, h, i))
            && (r.Some? ==> FirstInHosts(hosts, symbols, module_, name, r.value.0, r.value.1))
    decreases |hosts| - from
  {
    if from < |hosts| {
      SymbolSearch(symbols(hosts[from]), name, 0);
      var i := if hosts[from].name == module_ then FindSymbol(symbols(hosts[from]), name, 0) else None;
      if i.None? {
        forall h, j | HostHas(hosts, symbols, module_, name, h, j) ensures from + 1 <= h {
        }
        HostSearch(hosts, symbols, module_, name, from + 1);
      } else {
        assert HostHas(hosts, symbols, module_, name, from, i.value);
      }
    }
  }

  // ----- Wasm modules -----

  /** Export `i` of module `k` has the names asked for. */
  predicate ModuleHas(modules: seq<LinkModule>, module_: string, name: string, k: int, i: int) {
    && 0 <= k < |modules| && modules[k].name == module_
    && 0 <= i < |modules[k].exports| && modules[k].exports[i].name == name
  }

  ghost predicate FirstInModules(modules: seq<LinkModule>, module_: string, name: string, k: int, i: int) {
    && ModuleHas(modules, module_, name, k, i)
    && forall k', i' :: ModuleHas(modules, module_, name, k', i') ==> k < k' || (k == k' && i <= i')
  }

  lemma {:induction false} NameSearch(exports: seq<Export>, name: string, from: nat)
    requires from <= |exports|
    ensures var r := FindName(exports, name, from);
            && (r.None? ==> forall i :: from <= i < |exports| ==> exports[i].name != name)
            && (r.Some? ==>
                  && from <= r.value < |exports| && exports[r.value].name == name
                  && forall i :: from <= i < r.value ==> exports[i].name != name)
    decreases |exports| - from
  {
    if from < |exports| && exports[from].name != name { NameSearch(exports, name, from + 1); }
  }

  lemma {:induction false} ModuleSearch(modules: seq<LinkModule>, module_: string, name: string, from: nat)
    requires from <= |modules|
    requires forall k, i :: ModuleHas(modules, module_, name, k, i) ==> from <= k
    ensures var r := FindExport(modules, module_, name, from);
            && (r.None? ==> forall k, i :: !ModuleHas(modules, module_, name, k, i))
            && (r.Some? ==> exists i ::
                  && FirstInModules(modules, module_, name, r.value.0, i)
                  && modules[r.value.0].exports[i].desc == r.value.1)
    decreases |modules| - from
  {
    if from < |modules| {
      NameSearch(modules[from].exports, name, 0);
      var i := if modules[from].name == module_ then FindName(modules[from].exports, name, 0) else None;
      if i.None? {
        forall k, j | ModuleHas(modules, module_, name, k, j) ensures from + 1 <= k {
        }
        ModuleSearch(modules, module_, name, from + 1);
      } else {
        assert ModuleHas(modules, module_, name, from, i.value);
        assert FirstInModules(modules, module_, name, from, i.value);
      }
    }
  }

  // ----- index spaces -----

  predicate OfKind(i: Import, func: bool) { if func then i.Func? else i.Global? }

  /** How many of the first `i` imports are of the kind. */
  function Before(imports: seq<Import>, func: bool, i: nat): nat
    requires i <= |imports|
  {
    if i == 0 then 0 else Before(imports, func, i - 1) + (if OfKind(imports[i - 1], func) then 1 else 0)
  }

  /** Entry `x` of an index space of a module `k` with `defined` definitions: an import of the kind with
      `x` others before it, or, behind all imports, a definition. */
  ghost predicate EntryIs(imports: seq<Import>, func: bool, defined: nat, k: nat, x: nat, p: Place) {
    || (exists i :: 0 <= i < |imports| && OfKind(imports[i], func)
                    && Before(imports, func, i) == x && p == imports[i].at)
    || (exists j: Word :: j < defined && x == Before(imports, func, |imports|) + j && k < 0x100 && p == Defined(k, j))
  }

  lemma {:induction false} PlacesAppend(a: seq<Import>, b: seq<Import>, func: bool)
    ensures Places(a + b, func) == Places(a, func) + Places(b, func)
    decreases |a|
  {
    if a == [] {
      assert a + b == b;
    } else {
      assert (a + b)[0] == a[0] && (a + b)[1..] == a[1..] + b;
      PlacesAppend(a[1..], b, func);
    }
  }

  /** The places of the first `i` imports. */
  lemma {:induction false} PlacesBefore(imports: seq<Import>, func: bool, i: nat)
    requires i <= |imports|
    ensures |Places(imports[..i], func)| == Before(imports, func, i)
    ensures forall j :: 0 <= j < i && OfKind(imports[j], func) ==>
              Before(imports, func, j) < Before(imports, func, i)
              && Places(imports[..i], func)[Before(imports, func, j)] == imports[j].at
    decreases i
  {
    if i > 0 {
      PlacesBefore(imports, func, i - 1);
      assert imports[..i] == imports[..i - 1] + [imports[i - 1]];
      PlacesAppend(imports[..i - 1], [imports[i - 1]], func);
      OneImport(imports[i - 1], func);
    }
  }

  /** The import with `x` others of its kind before it. */
  lemma {:induction false} ImportAt(imports: seq<Import>, func: bool, i: nat, x: nat) returns (j: nat)
    requires i <= |imports| && x < Before(imports, func, i)
    ensures j < i && OfKind(imports[j], func) && Before(imports, func, j) == x
    decreases i
  {
    j := i - 1;
    if x < Before(imports, func, i - 1) { j := ImportAt(imports, func, i - 1, x); }
  }

  lemma OneImport(i: Import, func: bool)
    ensures Places([i], func) == if OfKind(i, func) then [i.at] else []
  {
    assert [i][1..] == [];
  }

  /** An index leads to exactly one entry, and to none behind the last. */
  lemma RefExactly(imports: seq<Import>, func: bool, defined: nat, k: nat, x: nat)
    requires defined <= 0xFFFF && k < 0x100
    ensures var r := RefAt(Places(imports, func), defined, x);
            && (r.None? <==> x >= Before(imports, func, |imports|) + defined)
            && forall p :: EntryIs(imports, func, defined, k, x, p) <==> r.Some? && p == Resolved(k, r.value)
  {
    PlacesBefore(imports, func, |imports|);
    assert imports[..|imports|] == imports;
    var n := Before(imports, func, |imports|);
    var r := RefAt(Places(imports, func), defined, x);
    if r.Some? {
      EntryFound(imports, func, defined, k, x);
    }
    forall p | EntryIs(imports, func, defined, k, x, p) ensures r.Some? && p == Resolved(k, r.value) {
    }
  }

  lemma EntryFound(imports: seq<Import>, func: bool, defined: nat, k: nat, x: nat)
    requires defined <= 0xFFFF && k < 0x100 && RefAt(Places(imports, func), defined, x).Some?
    ensures EntryIs(imports, func, defined, k, x, Resolved(k, RefAt(Places(imports, func), defined, x).value))
  {
    PlacesBefore(imports, func, |imports|);
    assert imports[..|imports|] == imports;
    var n := Before(imports, func, |imports|);
    if x < n {
      var j := ImportAt(imports, func, |imports|, x);
    } else {
      var j: Word := x - n;
      assert j < defined && x == n + j;
    }
  }

  /** The index space that calls are compiled against is the one that links go through. */
  lemma IndexAgrees(l: Linkage, k: nat, m: LinkModule, x: nat)
    requires LinkOk(l) && ModuleOk(l, k, m)
    ensures var (index, r) := (FuncIndex(l, k, m), FuncRefAt(m, x));
            && (r.Some? <==> x < |index|)
            && (r.Some? ==>
                  index[x].ref == match r.value
                                  case Here(i) => Local(i)
                                  case Elsewhere(p) => RefOf(p))
  {
  }

  // ----- limits -----

  /** A table or memory of `n` elements or pages is within the limits. */
  predicate Admits(l: Limits, n: nat) { l.min <= n && (l.max.Some? ==> n <= l.max.value) }

  /** Limits match exactly when they admit no size that is not admitted by those asked for. */
  lemma MatchesExactly(have: Limits, want: Limits)
    requires have.max.Some? ==> have.min <= have.max.value
    ensures have.Matches(want) <==> forall n :: Admits(have, n) ==> Admits(want, n)
  {
    if !have.Matches(want) {
      var n := if have.min < want.min then have.min
               else if have.max.Some? then have.max.value
               else if have.min <= want.max.value then want.max.value + 1 else have.min;
      assert Admits(have, n) && !Admits(want, n);
    }
  }

  // ----- links -----

  /** The place that the names of a declaration lead to. */
  ghost predicate LeadsTo(l: Linkage, d: ImportDecl, p: Place) {
    || (exists h, i :: InHosts(l, d, h, i) && 0 <= h < 0x100 && 0 <= i < 0x1_0000 && p == InHost(h, i))
    || ((forall h, i :: !HostNamed(l, d, h, i))
        && exists k, i ::
             FirstInModules(l.modules, d.module_, d.name, k, i) && ExportIs(l, d, k, l.modules[k].exports[i].desc, p))
  }

  predicate HostNamed(l: Linkage, d: ImportDecl, h: int, i: int) {
    match d.desc
    case WantFunc(_) => HostHas(l.hosts, (m: HostModule) => m.functions, d.module_, d.name, h, i)
    case WantTable(_) => HostHas(l.hosts, (m: HostModule) => m.tables, d.module_, d.name, h, i)
    case WantMemory(_) => HostHas(l.hosts, (m: HostModule) => m.memories, d.module_, d.name, h, i)
    case WantGlobal(_) => HostHas(l.hosts, (m: HostModule) => m.globals, d.module_, d.name, h, i)
  }

  ghost predicate InHosts(l: Linkage, d: ImportDecl, h: int, i: int) {
    && HostNamed(l, d, h, i)
    && forall h', i' :: HostNamed(l, d, h', i') ==> h < h' || (h == h' && i <= i')
  }

  /** What an export of module `k` stands for, if it is of the kind asked for. */
  ghost predicate ExportIs(l: Linkage, d: ImportDecl, k: int, e: ExportDesc, p: Place) {
    && 0 <= k < |l.modules| && k < 0x100
    && var m := l.modules[k];
       match d.desc
       case WantFunc(_) => e.FuncExport? && EntryIs(m.imports, true, |m.functions|, k, e.x, p)
       case WantGlobal(_) => e.GlobalExport? && EntryIs(m.imports, false, |m.globals|, k, e.x, p)
       case WantTable(_) => e == TableExport(0) && m.table.Some? && p == WholeOf(m.table.value, k)
       case WantMemory(_) => e == MemExport(0) && m.memory.Some? && p == WholeOf(m.memory.value, k)
  }

  function WholeOf<T>(kind: Kind<T>, k: U8): Place {
    match kind
    case Owned(_) => Defined(k, 0)
    case Imported(m) => Defined(m, 0)
    case ImportedHost(h, i) => InHost(h, i)
  }

  /** Two places lead nowhere else: the first symbol of a name is one symbol. */
  lemma HostOnce(l: Linkage, d: ImportDecl, h: int, i: int, h': int, i': int)
    requires InHosts(l, d, h, i) && InHosts(l, d, h', i')
    ensures h == h' && i == i'
  {
  }

  lemma ModuleOnce(modules: seq<LinkModule>, module_: string, name: string, k: int, i: int, k': int, i': int)
    requires FirstInModules(modules, module_, name, k, i) && FirstInModules(modules, module_, name, k', i')
    ensures k == k' && i == i'
  {
  }

  /** The host search of the four kinds. */
  function HostFound(l: Linkage, d: ImportDecl): Option<(nat, nat)> {
    match d.desc
    case WantFunc(_) => FindInHosts(l.hosts, (m: HostModule) => m.functions, d.module_, d.name, 0)
    case WantTable(_) => FindInHosts(l.hosts, (m: HostModule) => m.tables, d.module_, d.name, 0)
    case WantMemory(_) => FindInHosts(l.hosts, (m: HostModule) => m.memories, d.module_, d.name, 0)
    case WantGlobal(_) => FindInHosts(l.hosts, (m: HostModule) => m.globals, d.module_, d.name, 0)
  }

  lemma HostFoundExactly(l: Linkage, d: ImportDecl)
    ensures var r := HostFound(l, d);
            && (r.None? ==> forall h, i :: !HostNamed(l, d, h, i))
            && (r.Some? ==> InHosts(l, d, r.value.0, r.value.1))
  {
    match d.desc
    case WantFunc(_) => HostSearch(l.hosts, (m: HostModule) => m.functions, d.module_, d.name, 0);
    case WantTable(_) => HostSearch(l.hosts, (m: HostModule) => m.tables, d.module_, d.name, 0);
    case WantMemory(_) => HostSearch(l.hosts, (m: HostModule) => m.memories, d.module_, d.name, 0);
    case WantGlobal(_) => HostSearch(l.hosts, (m: HostModule) => m.globals, d.module_, d.name, 0);
  }

  ghost predicate ModuleNamed(l: Linkage, d: ImportDecl) {
    exists k, i :: ModuleHas(l.modules, d.module_, d.name, k, i)
  }

  /** The entries of a found host module have bounded indices. */
  lemma HostIndices(l: Linkage, d: ImportDecl, h: int, i: int)
    requires LinkOk(l) && HostNamed(l, d, h, i)
    ensures 0 <= h < 0x100 && 0 <= i < 0x1_0000
  {
    assert HostSized(l.hosts[h]);
  }

  lemma SearchHosts(l: Linkage, d: ImportDecl, p: Place)
    requires LinkOk(l) && HostFound(l, d).Some?
    ensures var h := HostFound(l, d).value;
            && h.0 < 0x100 && h.1 < 0x1_0000 && HostNamed(l, d, h.0, h.1)
            && (LeadsTo(l, d, p) <==> p == InHost(h.0, h.1))
  {
    hide LinkOk, HostNamed, HostFound;
    HostFoundExactly(l, d);
    var h := HostFound(l, d).value;
    HostIndices(l, d, h.0, h.1);
    assert InHosts(l, d, h.0, h.1);
    forall h', i' | InHosts(l, d, h', i') ensures h' == h.0 && i' == h.1 {
      HostOnce(l, d, h.0, h.1, h', i');
    }
  }

  lemma SearchModules(l: Linkage, d: ImportDecl, p: Place)
    requires LinkOk(l) && HostFound(l, d).None?
    ensures var e := FindExport(l.modules, d.module_, d.name, 0);
            && (forall h, i :: !HostNamed(l, d, h, i))
            && (e.None? <==> !ModuleNamed(l, d))
            && (LeadsTo(l, d, p) <==> e.Some? && ExportIs(l, d, e.value.0, e.value.1, p))
  {
    hide LinkOk, HostNamed, HostFound, FindExport, ExportIs;
    HostFoundExactly(l, d);
    assert forall h, i :: !InHosts(l, d, h, i);
    ModuleSearch(l.modules, d.module_, d.name, 0);
    var e := FindExport(l.modules, d.module_, d.name, 0);
    if e.Some? {
      var i :|
        && FirstInModules(l.modules, d.module_, d.name, e.value.0, i)
        && l.modules[e.value.0].exports[i].desc == e.value.1;
      forall k', i' | FirstInModules(l.modules, d.module_, d.name, k', i') ensures k' == e.value.0 && i' == i {
        ModuleOnce(l.modules, d.module_, d.name, e.value.0, i, k', i');
      }
    }
  }

  function NotFound(d: ImportDesc): LinkError {
    match d
    case WantFunc(_) => FunctionImportNotFound
    case WantTable(_) => TableImportNotFound
    case WantMemory(_) => MemoryImportNotFound
    case WantGlobal(_) => GlobalImportNotFound
  }

  /** At least the minimum asked for, and if a maximum is asked for, one that is no greater. */
  predicate Within(have: Limits, want: Limits) {
    && want.min <= have.min
    && (want.max.Some? ==> have.max.Some? && have.max.value <= want.max.value)
  }

  /** What was asked for is what lies at the place: the very signature, the very type of a global, limits within
      those asked for, and pages of the same size. */
  predicate Suits(l: Linkage, i: Import, d: ImportDesc) {
    var (k, x) := (i.at.module_, i.at.index);
    if i.at.Defined? then
      && k < |l.modules|
      && var m := l.modules[k];
         match d
         case WantFunc(t) => i.Func? && x < |m.functions| && m.functions[x] == t
         case WantGlobal(t) => i.Global? && x < |m.globals| && m.globals[x] == t
         case WantTable(t) =>
           i.Table? && m.table.Some? && m.table.value.Owned? && Within(m.table.value.ty, t)
         case WantMemory(t) =>
           && i.Memory? && m.memory.Some? && m.memory.value.Owned?
           && Within(m.memory.value.ty.limits, t.limits) && m.memory.value.ty.pageSize == t.pageSize
    else
      && k < |l.hosts|
      && var h := l.hosts[k];
         match d
         case WantFunc(t) => i.Func? && x < |h.functions| && h.functions[x].value == t
         case WantGlobal(t) => i.Global? && x < |h.globals| && h.globals[x].value == t
         case WantTable(t) => i.Table? && x < |h.tables| && Within(h.tables[x].value, t)
         case WantMemory(t) =>
           && i.Memory? && x < |h.memories|
           && Within(h.memories[x].value.limits, t.limits) && h.memories[x].value.pageSize == t.pageSize
  }

  lemma SatisfiesSuits(l: Linkage, i: Import, d: ImportDesc)
    requires LinkOk(l)
    ensures Satisfies(l, i, d) <==> Suits(l, i, d)
  {
    hide ModuleOk;
  }

  /** A link is made exactly to the place the names lead to, and exactly when what lies there suits. It is not
      found exactly when neither a host module nor a Wasm module has the names. */
  lemma LinkExactly(l: Linkage, d: ImportDecl, i: Import)
    requires LinkOk(l)
    ensures Link(l, d) == Result.Ok(i) <==> LeadsTo(l, d, i.at) && Suits(l, i, d.desc)
    ensures Link(l, d) == Result.Err(NotFound(d.desc)) <==>
              (forall h, j :: !HostNamed(l, d, h, j)) && !ModuleNamed(l, d)
  {
    hide Suits, Satisfies;
    SatisfiesSuits(l, i, d.desc);
    if HostFound(l, d).Some? {
      SearchHosts(l, d, i.at);
      HostLink(l, d, i);
    } else {
      SearchModules(l, d, i.at);
      match d.desc
      case WantFunc(_) => FunctionLink(l, d, i);
      case WantGlobal(_) => GlobalLink(l, d, i);
      case WantTable(_) => TableLink(l, d, i);
      case WantMemory(_) => MemoryLink(l, d, i);
    }
  }

  lemma HostLink(l: Linkage, d: ImportDecl, i: Import)
    requires LinkOk(l) && HostFound(l, d).Some?
    requires HostFound(l, d).value.0 < 0x100 && HostFound(l, d).value.1 < 0x1_0000
    ensures var h := HostFound(l, d).value;
            Link(l, d) == Result.Ok(i) <==> i.at == InHost(h.0, h.1) && Satisfies(l, i, d.desc)
    ensures Link(l, d) != Result.Err(NotFound(d.desc))
  {
  }

  lemma FunctionLink(l: Linkage, d: ImportDecl, i: Import)
    requires LinkOk(l) && HostFound(l, d).None? && d.desc.WantFunc?
    ensures var e := FindExport(l.modules, d.module_, d.name, 0);
            && (Link(l, d) == Result.Ok(i) <==>
                  e.Some? && ExportIs(l, d, e.value.0, e.value.1, i.at) && Satisfies(l, i, d.desc))
            && (Link(l, d) == Result.Err(NotFound(d.desc)) <==> e.None?)
  {
    hide EntryIs;
    var e := FindExport(l.modules, d.module_, d.name, 0);
    if e.Some? && e.value.1.FuncExport? {
      var m := l.modules[e.value.0];
      assert ModuleOk(l, e.value.0, m);
      RefExactly(m.imports, true, |m.functions|, e.value.0, e.value.1.x);
    }
  }

  lemma GlobalLink(l: Linkage, d: ImportDecl, i: Import)
    requires LinkOk(l) && HostFound(l, d).None? && d.desc.WantGlobal?
    ensures var e := FindExport(l.modules, d.module_, d.name, 0);
            && (Link(l, d) == Result.Ok(i) <==>
                  e.Some? && ExportIs(l, d, e.value.0, e.value.1, i.at) && Satisfies(l, i, d.desc))
            && (Link(l, d) == Result.Err(NotFound(d.desc)) <==> e.None?)
  {
    hide EntryIs;
    var e := FindExport(l.modules, d.module_, d.name, 0);
    if e.Some? && e.value.1.GlobalExport? {
      var m := l.modules[e.value.0];
      assert ModuleOk(l, e.value.0, m);
      RefExactly(m.imports, false, |m.globals|, e.value.0, e.value.1.x);
    }
  }

  lemma TableLink(l: Linkage, d: ImportDecl, i: Import)
    requires LinkOk(l) && HostFound(l, d).None? && d.desc.WantTable?
    ensures var e := FindExport(l.modules, d.module_, d.name, 0);
            && (Link(l, d) == Result.Ok(i) <==>
                  e.Some? && ExportIs(l, d, e.value.0, e.value.1, i.at) && Satisfies(l, i, d.desc))
            && (Link(l, d) == Result.Err(NotFound(d.desc)) <==> e.None?)
  {
    hide FindExport, ModuleOk;
    var e := FindExport(l.modules, d.module_, d.name, 0);
    if e.Some? && l.modules[e.value.0].table.Some? { TableOwner(l, e.value.0); }
  }

  lemma MemoryLink(l: Linkage, d: ImportDecl, i: Import)
    requires LinkOk(l) && HostFound(l, d).None? && d.desc.WantMemory?
    ensures var e := FindExport(l.modules, d.module_, d.name, 0);
            && (Link(l, d) == Result.Ok(i) <==>
                  e.Some? && ExportIs(l, d, e.value.0, e.value.1, i.at) && Satisfies(l, i, d.desc))
            && (Link(l, d) == Result.Err(NotFound(d.desc)) <==> e.None?)
  {
    hide FindExport, ModuleOk;
    var e := FindExport(l.modules, d.module_, d.name, 0);
    if e.Some? && l.modules[e.value.0].memory.Some? { MemoryOwner(l, e.value.0); }
  }
}
