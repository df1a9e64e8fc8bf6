/** Layered INI configuration: the last-wins merge of the layers, and the reverse scan that reports
    which layer an option came from. */
module ConfigLayers {
  import opened Common

  type Options = map<string, string>

  /** A parsed file. Defaults show through in every section that the file itself declares. */
  datatype Parser = Parser(defaults: Options, sections: map<string, Options>)

  datatype Layer = Layer(file: string, parser: Parser)

  /** The files on disk: shared ones, and those in the directory of the current instance. */
  datatype Files = Files(shared: map<string, Parser>, instanced: map<string, Parser>)

  // ---------------------------------------------------------------- options of a file

  function LowerChar(c: char): (l: char)
    ensures !('A' <= l <= 'Z') && (l != c ==> 'A' <= c <= 'Z' && l as int - 'a' as int == c as int - 'A' as int)
  {
    if 'A' <= c <= 'Z' then (c as int + 32) as char else c
  }

  /** Option names are case-insensitive and stored in lower case. */
  function Lower(s: string): string {
    seq(|s|, i requires 0 <= i < |s| => LowerChar(s[i]))
  }

  function Items(p: Parser, section: string): Options
    requires section in p.sections
  {
    p.defaults + p.sections[section]
  }

  /** The value that a file gives to an option, if it gives one. */
  function ValueAt(p: Parser, section: string, key: string): Option<string> {
    if section in p.sections && Lower(key) in Items(p, section) then Some(Items(p, section)[Lower(key)]) else None
  }

  /** The section must be declared by the file; its own option wins over the file's default, and the
      case of the option name does not matter. */
  lemma ValueAtIs(p: Parser, section: string, key: string)
    ensures section !in p.sections ==> ValueAt(p, section, key) == None
    ensures section in p.sections && Lower(key) in p.sections[section] ==>
      ValueAt(p, section, key) == Some(p.sections[section][Lower(key)])
    ensures section in p.sections && Lower(key) !in p.sections[section] && Lower(key) in p.defaults ==>
      ValueAt(p, section, key) == Some(p.defaults[Lower(key)])
    ensures section in p.sections && Lower(key) !in p.sections[section] && Lower(key) !in p.defaults ==>
      ValueAt(p, section, key) == None
  {
  }

  predicate Has(p: Parser, section: string, key: string) {
    ValueAt(p, section, key).Some?
  }

  // ---------------------------------------------------------------- merging

  type Merged = map<string, Options>

  function OptionsOf(m: Merged, section: string): Options {
    if section in m then m[section] else map[]
  }

  function Lookup(m: Merged, section: string, key: string): Option<string> {
    if Lower(key) in OptionsOf(m, section) then Some(OptionsOf(m, section)[Lower(key)]) else None
  }

  /** `m` with the given sections of the file laid over it. */
  function Overlay(m: Merged, p: Parser, sections: set<string>): Merged
    requires sections <= p.sections.Keys
  {
    map s | s in m.Keys + sections :: if s in sections then OptionsOf(m, s) + Items(p, s) else m[s]
  }

  function MergeOne(m: Merged, p: Parser): Merged { Overlay(m, p, p.sections.Keys) }

  function MergeAll(layers: seq<Layer>): Merged {
    if layers == [] then map[] else MergeOne(MergeAll(layers[..|layers| - 1]), layers[|layers| - 1].parser)
  }

  /** The merge loops: layer by layer, section by section, option by option. */
  method MergeParsers(layers: seq<Layer>) returns (merged: Merged)
    ensures merged == MergeAll(layers)
  {
    merged := map[];
    for n := 0 to |layers|
      invariant merged == MergeAll(layers[..n])
    {
      assert layers[..n + 1][..n] == layers[..n];
      merged := MergeSections(merged, layers[n].parser);
    }
    assert layers[..|layers|] == layers;
  }

  method MergeSections(before: Merged, p: Parser) returns (merged: Merged)
    ensures merged == MergeOne(before, p)
  {
    merged := before;
    var rest := p.sections.Keys;
    assert merged == Overlay(before, p, {});
    while rest != {}
      invariant rest <= p.sections.Keys
      invariant merged == Overlay(before, p, p.sections.Keys - rest)
      decreases rest
    {
      var s :| s in rest;
      OverlayOneMore(before, p, p.sections.Keys - rest, s);
      var options := SetOptions(OptionsOf(merged, s), Items(p, s));
      merged := merged[s := options];
      assert (p.sections.Keys - rest) + {s} == p.sections.Keys - (rest - {s});
      rest := rest - {s};
    }
    assert p.sections.Keys - rest == p.sections.Keys;
  }

  lemma OverlayOneMore(m: Merged, p: Parser, sections: set<string>, s: string)
    requires sections <= p.sections.Keys && s in p.sections && s !in sections
    ensures Overlay(m, p, sections + {s})
         == Overlay(m, p, sections)[s := OptionsOf(Overlay(m, p, sections), s) + Items(p, s)]
  {
    assert OptionsOf(Overlay(m, p, sections), s) == OptionsOf(m, s);
  }

  method SetOptions(before: Options, items: Options) returns (options: Options)
    ensures options == before + items
  {
    options := before;
    var rest := items.Keys;
    while rest != {}
      invariant rest <= items.Keys
      invariant options.Keys == before.Keys + (items.Keys - rest)
      invariant forall k :: k in options ==> options[k] == if k in items && k !in rest then items[k] else before[k]
      decreases rest
    {
      var k :| k in rest;
      options := options[k := items[k]];
      rest := rest - {k};
    }
  }

  // ---------------------------------------------------------------- which layers there are

  function EndsWith(s: string, suffix: string): bool {
    |s| >= |suffix| && s[|s| - |suffix|..] == suffix
  }

  function LocalName(name: string): string {
    if EndsWith(name, ".ini") then name[..|name| - 4] + ".local.ini" else name + ".local"
  }

  function CanonicalName(name: string): string {
    if EndsWith(name, ".local.ini") then name[..|name| - 10] + ".ini" else name
  }

  predicate AllowsInstanceLayers(name: string) {
    CanonicalName(name) in {"market.ini", "mt5.ini", "risk.ini", "exit.ini"}
  }

  /** The local variant of a file has its name with `.local` before the extension, and leads back to it. */
  lemma LocalNames(stem: string)
    ensures LocalName(stem + ".ini") == stem + ".local.ini"
    ensures CanonicalName(stem + ".local.ini") == stem + ".ini"
    ensures !EndsWith(stem, ".ini") ==> LocalName(stem) == stem + ".local"
  {
  }

  lemma SameStem(a: string, b: string, suffix: string)
    requires a + suffix == b + suffix
    ensures a == b
  {
    assert |a + suffix| == |a| + |suffix| && |b + suffix| == |b| + |suffix|;
    assert a == (a + suffix)[..|a|] && b == (b + suffix)[..|b|];
  }

  lemma EndsWithSuffix(stem: string, suffix: string)
    ensures EndsWith(stem + suffix, suffix) && (stem + suffix)[..|stem|] == stem
  {
  }

  /** Only a file and its local variant lead to that file. */
  lemma CanonicalIff(name: string, stem: string)
    requires !EndsWith(stem + ".ini", ".local.ini")
    ensures CanonicalName(name) == stem + ".ini" <==> name == stem + ".ini" || name == stem + ".local.ini"
  {
    EndsWithSuffix(stem, ".local.ini");
    if EndsWith(name, ".local.ini") {
      var x := name[..|name| - 10];
      assert name == x + ".local.ini";
      assert CanonicalName(name) == x + ".ini";
      if x + ".ini" == stem + ".ini" { SameStem(x, stem, ".ini"); }
      if x + ".local.ini" == stem + ".local.ini" { SameStem(x, stem, ".local.ini"); }
    }
  }

  lemma FourStems()
    ensures !EndsWith("market" + ".ini", ".local.ini") && "market" + ".ini" == "market.ini"
    ensures !EndsWith("mt5" + ".ini", ".local.ini") && "mt5" + ".ini" == "mt5.ini"
    ensures !EndsWith("risk" + ".ini", ".local.ini") && "risk" + ".ini" == "risk.ini"
    ensures !EndsWith("exit" + ".ini", ".local.ini") && "exit" + ".ini" == "exit.ini"
  {
    var t := "market.ini";
    assert |t| == 10 && t[0] == 'm' && ".local.ini"[0] == '.';
  }

  /** Instance files are read for the four instance-scoped configurations and their local variants. */
  lemma InstanceScopedIff(name: string)
    ensures AllowsInstanceLayers(name) <==>
      || name == "market.ini" || name == "market" + ".local.ini"
      || name == "mt5.ini" || name == "mt5" + ".local.ini"
      || name == "risk.ini" || name == "risk" + ".local.ini"
      || name == "exit.ini" || name == "exit" + ".local.ini"
  {
    FourStems();
    CanonicalIff(name, "market");
    CanonicalIff(name, "mt5");
    CanonicalIff(name, "risk");
    CanonicalIff(name, "exit");
  }

  /** The shared file first, then the instance's own copy where one is allowed. */
  function NamedLayers(fs: Files, name: string, instance: Option<string>): seq<Layer> {
    (if name in fs.shared then [Layer(name, fs.shared[name])] else [])
    + (if instance.Some? && AllowsInstanceLayers(name) && name in fs.instanced
       then [Layer(InstanceLabel(instance.value, name), fs.instanced[name])] else [])
  }

  function AllLayers(fs: Files, config: string, base: string, instance: Option<string>): seq<Layer> {
    var shared := NamedLayers(fs, base, instance) + NamedLayers(fs, LocalName(base), instance);
    if config == base then shared
    else shared + NamedLayers(fs, config, instance) + NamedLayers(fs, LocalName(config), instance)
  }

  /** The name under which a layer of the instance's own directory is reported. */
  function InstanceLabel(instance: string, name: string): string { "instances/" + instance + "/" + name }

  /** The path reported for a file: the instance's own copy where one is allowed, else the shared one. */
  function ResolvePath(fs: Files, name: string, instance: Option<string>): Option<string> {
    if instance.Some? && AllowsInstanceLayers(name) && name in fs.instanced then Some(InstanceLabel(instance.value, name))
    else if name in fs.shared then Some(name)
    else None
  }

  /** The reported path names the last layer of the file, and is absent exactly if the file has none. */
  lemma PathIsLastLayer(fs: Files, name: string, instance: Option<string>)
    ensures var layers := NamedLayers(fs, name, instance);
      ResolvePath(fs, name, instance) == if layers == [] then None else Some(layers[|layers| - 1].file)
  {
  }

  /** The path of the target file, which need not exist, and the merge of all layers. */
  method LoadConfigWithBase(fs: Files, config: string, base: string, instance: Option<string>)
    returns (path: Option<string>, merged: Option<Merged>)
    ensures merged == var layers := AllLayers(fs, config, base, instance);
                      if layers == [] then None else Some(MergeAll(layers))
    ensures path == ResolvePath(fs, config, instance)
  {
    var layers := LoadLayers(fs, config, base, instance);
    if layers == [] {
      NoLayersNoPath(fs, config, base, instance);
      return None, None;
    }
    var parsed := MergeParsers(layers);
    path, merged := ResolvePath(fs, config, instance), Some(parsed);
  }

  /** The layer list, extended file by file. */
  method LoadLayers(fs: Files, config: string, base: string, instance: Option<string>) returns (layers: seq<Layer>)
    ensures layers == AllLayers(fs, config, base, instance)
  {
    layers := NamedLayers(fs, base, instance);
    layers := layers + NamedLayers(fs, LocalName(base), instance);
    if config != base {
      layers := layers + NamedLayers(fs, config, instance);
      layers := layers + NamedLayers(fs, LocalName(config), instance);
    }
  }

  lemma NoLayersNoPath(fs: Files, config: string, base: string, instance: Option<string>)
    requires AllLayers(fs, config, base, instance) == []
    ensures ResolvePath(fs, config, instance) == None
  {
    assert NamedLayers(fs, config, instance) == [];
    PathIsLastLayer(fs, config, instance);
  }

  // ---------------------------------------------------------------- the source of an option

  function Reverse(layers: seq<Layer>): seq<Layer> {
    if layers == [] then [] else [layers[|layers| - 1]] + Reverse(layers[..|layers| - 1])
  }

  lemma ReverseSnoc(layers: seq<Layer>, l: Layer)
    ensures Reverse(layers + [l]) == [l] + Reverse(layers)
  {
    assert (layers + [l])[..|layers|] == layers;
  }

  lemma {:induction false} ReverseConcat(a: seq<Layer>, b: seq<Layer>)
    ensures Reverse(a + b) == Reverse(b) + Reverse(a)
    decreases |b|
  {
    if b == [] {
      assert a + b == a;
      assert Reverse(b) + Reverse(a) == Reverse(a);
    } else {
      var front, l := Unsnoc(b);
      ReverseConcat(a, front);
      ConcatAssociates(a, front, [l]);
      ReverseSnoc(a + front, l);
      ReverseSnoc(front, l);
      ConcatAssociates([l], Reverse(front), Reverse(a));
    }
  }

  function FirstHolding(candidates: seq<Layer>, section: string, key: string): Option<Layer> {
    if candidates == [] then None
    else if Has(candidates[0].parser, section, key) then Some(candidates[0])
    else FirstHolding(candidates[1..], section, key)
  }

  /** The layer reported for an option; an empty section or option name has none. */
  function OptionSource(layers: seq<Layer>, section: string, key: string): Option<Layer> {
    if section == "" || key == "" then None else FirstHolding(Reverse(layers), section, key)
  }

  /** The candidate list is built file by file, each file's layers reversed. */
  method Candidates(fs: Files, config: string, base: string, instance: Option<string>)
    returns (candidates: seq<Layer>)
    ensures candidates == Reverse(AllLayers(fs, config, base, instance))
  {
    CandidatesAreReversedLayers(fs, config, base, instance);
    var b, bl := Reverse(NamedLayers(fs, base, instance)), Reverse(NamedLayers(fs, LocalName(base), instance));
    if config == base {
      candidates := bl;
      candidates := candidates + b;
    } else {
      candidates := Reverse(NamedLayers(fs, LocalName(config), instance));
      candidates := candidates + Reverse(NamedLayers(fs, config, instance));
      candidates := candidates + bl;
      candidates := candidates + b;
    }
  }

  method Scan(candidates: seq<Layer>, section: string, key: string) returns (source: Option<Layer>)
    ensures source == FirstHolding(candidates, section, key)
  {
    for n := 0 to |candidates|
      invariant FirstHolding(candidates, section, key) == FirstHolding(candidates[n..], section, key)
    {
      assert candidates[n..][1..] == candidates[n + 1..];
      if Has(candidates[n].parser, section, key) { return Some(candidates[n]); }
    }
    source := None;
  }

  /** The source of an option: the first candidate that holds it. */
  method GetMergedOptionSource(
      fs: Files, config: string, base: string, instance: Option<string>, section: string, key: string)
    returns (shown: Option<string>)
    ensures var source := OptionSource(AllLayers(fs, config, base, instance), section, key);
      shown == if source.None? then None else Some(SourceLabel(source.value, section, key))
  {
    if section == "" || key == "" { return None; }
    var candidates := Candidates(fs, config, base, instance);
    var source := Scan(candidates, section, key);
    shown := if source.None? then None else Some(SourceLabel(source.value, section, key));
  }

  /** How the source of an option is reported. */
  function SourceLabel(l: Layer, section: string, key: string): string {
    l.file + "[" + section + "]." + key
  }

  /** The hand-built candidate order is the exact reverse of the merge order, also when the target is
      the base file itself. */
  lemma CandidatesAreReversedLayers(fs: Files, config: string, base: string, instance: Option<string>)
    ensures config == base ==>
      Reverse(AllLayers(fs, config, base, instance))
      == Reverse(NamedLayers(fs, LocalName(base), instance)) + Reverse(NamedLayers(fs, base, instance))
    ensures config != base ==>
      Reverse(AllLayers(fs, config, base, instance))
      == Reverse(NamedLayers(fs, LocalName(config), instance)) + Reverse(NamedLayers(fs, config, instance))
         + Reverse(NamedLayers(fs, LocalName(base), instance)) + Reverse(NamedLayers(fs, base, instance))
  {
    var b, bl := NamedLayers(fs, base, instance), NamedLayers(fs, LocalName(base), instance);
    ReverseConcat(b, bl);
    ReverseFour(b, bl, NamedLayers(fs, config, instance), NamedLayers(fs, LocalName(config), instance));
  }

  lemma ReverseFour(a: seq<Layer>, b: seq<Layer>, c: seq<Layer>, d: seq<Layer>)
    ensures Reverse(a + b + c + d) == Reverse(d) + Reverse(c) + Reverse(b) + Reverse(a)
  {
    ReverseConcat(a, b);
    ReverseConcat(a + b, c);
    ReverseConcat(a + b + c, d);
    ConcatAssociates(Reverse(c), Reverse(b), Reverse(a));
    ConcatAssociates(Reverse(d), Reverse(c) + Reverse(b), Reverse(a));
    ConcatAssociates(Reverse(d), Reverse(c), Reverse(b));
  }

  /** Reference definition of last-wins: the value of the last layer that has the option. */
  function LastValue(layers: seq<Layer>, section: string, key: string): Option<string> {
    if layers == [] then None
    else
      var n := |layers| - 1;
      var v := ValueAt(layers[n].parser, section, key);
      if v.Some? then v else LastValue(layers[..n], section, key)
  }

  lemma OverlayLookup(m: Merged, p: Parser, section: string, key: string)
    ensures Lookup(MergeOne(m, p), section, key)
         == if ValueAt(p, section, key).Some? then ValueAt(p, section, key) else Lookup(m, section, key)
  {
    if section in p.sections {
      assert OptionsOf(MergeOne(m, p), section) == OptionsOf(m, section) + Items(p, section);
    } else {
      assert OptionsOf(MergeOne(m, p), section) == OptionsOf(m, section);
    }
  }

  /** The merge fold is last-wins, option by option. */
  lemma {:induction false} MergeIsLastWins(layers: seq<Layer>, section: string, key: string)
    ensures Lookup(MergeAll(layers), section, key) == LastValue(layers, section, key)
  {
    if layers != [] {
      var n := |layers| - 1;
      MergeIsLastWins(layers[..n], section, key);
      OverlayLookup(MergeAll(layers[..n]), layers[n].parser, section, key);
    }
  }

  /** `layer` is the last of the layers that holds the option. */
  ghost predicate IsLastHolder(layers: seq<Layer>, i: int, section: string, key: string) {
    && 0 <= i < |layers|
    && Has(layers[i].parser, section, key)
    && forall j :: i < j < |layers| ==> !Has(layers[j].parser, section, key)
  }

  lemma {:induction false} ScanFindsLastHolder(layers: seq<Layer>, section: string, key: string)
    ensures SourceIsLast(layers, FirstHolding(Reverse(layers), section, key), section, key)
    decreases |layers|
  {
    if layers != [] {
      var front, l := Unsnoc(layers);
      ScanFindsLastHolder(front, section, key);
      ReverseSnoc(front, l);
      ScanStep(front, l, section, key);
      SourceStep(front, l, FirstHolding(Reverse(front), section, key), section, key);
    }
  }

  /** A source that explains the last-wins value: the last holder, if any layer holds the option. */
  ghost predicate SourceIsLast(layers: seq<Layer>, source: Option<Layer>, section: string, key: string) {
    && (source.None? <==> LastValue(layers, section, key).None?)
    && (source.Some? ==> ValueAt(source.value.parser, section, key) == LastValue(layers, section, key))
    && (source.Some? ==> exists i :: IsLastHolder(layers, i, section, key) && layers[i] == source.value)
  }

  lemma LastValueSnoc(layers: seq<Layer>, l: Layer, section: string, key: string)
    ensures LastValue(layers + [l], section, key)
         == if ValueAt(l.parser, section, key).Some? then ValueAt(l.parser, section, key) else LastValue(layers, section, key)
  {
    assert (layers + [l])[..|layers|] == layers;
  }

  lemma SourceStep(front: seq<Layer>, l: Layer, source: Option<Layer>, section: string, key: string)
    requires SourceIsLast(front, source, section, key)
    ensures SourceIsLast(front + [l], if Has(l.parser, section, key) then Some(l) else source, section, key)
  {
    LastValueSnoc(front, l, section, key);
    if Has(l.parser, section, key) {
      assert IsLastHolder(front + [l], |front|, section, key);
    } else if source.Some? {
      var i :| IsLastHolder(front, i, section, key) && front[i] == source.value;
      assert IsLastHolder(front + [l], i, section, key);
    }
  }

  lemma ScanStep(front: seq<Layer>, l: Layer, section: string, key: string)
    requires Reverse(front + [l]) == [l] + Reverse(front)
    ensures FirstHolding(Reverse(front + [l]), section, key)
         == if Has(l.parser, section, key) then Some(l) else FirstHolding(Reverse(front), section, key)
  {
    assert ([l] + Reverse(front))[1..] == Reverse(front);
  }

  /** No INI file can declare an empty section or option name. */
  ghost predicate Named(p: Parser) {
    && "" !in p.sections && "" !in p.defaults
    && forall s :: s in p.sections ==> "" !in p.sections[s]
  }

  ghost predicate AllNamed(fs: Files) {
    && (forall f :: f in fs.shared ==> Named(fs.shared[f]))
    && (forall f :: f in fs.instanced ==> Named(fs.instanced[f]))
  }

  lemma {:induction false} EmptyNamesHaveNoValue(layers: seq<Layer>, section: string, key: string)
    requires section == "" || key == ""
    requires forall i :: 0 <= i < |layers| ==> Named(layers[i].parser)
    ensures LastValue(layers, section, key).None?
  {
    if layers != [] {
      assert Lower("") == "";
      EmptyNamesHaveNoValue(layers[..|layers| - 1], section, key);
    }
  }

  lemma LayersAreNamed(fs: Files, config: string, base: string, instance: Option<string>)
    requires AllNamed(fs)
    ensures forall i :: 0 <= i < |AllLayers(fs, config, base, instance)| ==>
      Named(AllLayers(fs, config, base, instance)[i].parser)
  {
    forall name ensures forall l :: l in NamedLayers(fs, name, instance) ==> Named(l.parser) {
    }
    forall l | l in AllLayers(fs, config, base, instance) ensures Named(l.parser) {
    }
  }

  /** The reported source is a layer that holds exactly the merged value, namely the last one that has
      the option at all; no source is reported exactly when the merged configuration lacks it. */
  lemma SourceExplainsMergedValue(
      fs: Files, config: string, base: string, instance: Option<string>, section: string, key: string)
    requires AllNamed(fs)
    ensures var layers := AllLayers(fs, config, base, instance);
      var source, value := OptionSource(layers, section, key), Lookup(MergeAll(layers), section, key);
      && (source.None? <==> value.None?)
      && (source.Some? ==> ValueAt(source.value.parser, section, key) == value)
      && (source.Some? ==> exists i :: IsLastHolder(layers, i, section, key) && layers[i] == source.value)
  {
    var layers := AllLayers(fs, config, base, instance);
    MergeIsLastWins(layers, section, key);
    if section == "" || key == "" {
      LayersAreNamed(fs, config, base, instance);
      EmptyNamesHaveNoValue(layers, section, key);
    } else {
      ScanFindsLastHolder(layers, section, key);
    }
  }

  // ---------------------------------------------------------------- precedence, file by file

  /** What the shared copy of a file gives to an option, and what the instance's own copy gives. */
  function SharedValue(fs: Files, name: string, section: string, key: string): Option<string> {
    if name in fs.shared then ValueAt(fs.shared[name], section, key) else None
  }

  function OwnValue(fs: Files, name: string, instance: Option<string>, section: string, key: string): Option<string> {
    if instance.Some? && AllowsInstanceLayers(name) && name in fs.instanced
    then ValueAt(fs.instanced[name], section, key) else None
  }

  function Prefer(a: Option<string>, b: Option<string>): Option<string> { if a.Some? then a else b }

  lemma NamedValue(fs: Files, name: string, instance: Option<string>, section: string, key: string)
    ensures LastValue(NamedLayers(fs, name, instance), section, key)
         == Prefer(OwnValue(fs, name, instance, section, key), SharedValue(fs, name, section, key))
  {
    var shared := if name in fs.shared then [Layer(name, fs.shared[name])] else [];
    var own := if instance.Some? && AllowsInstanceLayers(name) && name in fs.instanced
      then [Layer(InstanceLabel(instance.value, name), fs.instanced[name])] else [];
    assert NamedLayers(fs, name, instance) == shared + own;
    LastValueConcat(shared, own, section, key);
    if shared != [] { OnlyLayer(shared[0], section, key); }
    if own != [] { OnlyLayer(own[0], section, key); }
  }

  /** One file and its local variant: the instance's local file wins, then the shared local file, then
      the instance's file, then the shared file. */
  function FileValue(fs: Files, name: string, instance: Option<string>, section: string, key: string): Option<string> {
    Prefer(OwnValue(fs, LocalName(name), instance, section, key),
      Prefer(SharedValue(fs, LocalName(name), section, key),
        Prefer(OwnValue(fs, name, instance, section, key), SharedValue(fs, name, section, key))))
  }

  /** The merged value of an option: any file of the target wins over every file of the base. */
  lemma MergedValueIs(fs: Files, config: string, base: string, instance: Option<string>, section: string, key: string)
    ensures Lookup(MergeAll(AllLayers(fs, config, base, instance)), section, key)
         == if config == base then FileValue(fs, base, instance, section, key)
            else Prefer(FileValue(fs, config, instance, section, key), FileValue(fs, base, instance, section, key))
  {
    MergeIsLastWins(AllLayers(fs, config, base, instance), section, key);
    FileValueIs(fs, base, instance, section, key);
    if config != base {
      FileValueIs(fs, config, instance, section, key);
      ConcatAssociates(FileLayers(fs, base, instance), NamedLayers(fs, config, instance),
                       NamedLayers(fs, LocalName(config), instance));
      LastValueConcat(FileLayers(fs, base, instance), FileLayers(fs, config, instance), section, key);
    }
  }

  lemma FileValueIs(fs: Files, name: string, instance: Option<string>, section: string, key: string)
    ensures LastValue(FileLayers(fs, name, instance), section, key) == FileValue(fs, name, instance, section, key)
  {
    LastValueConcat(NamedLayers(fs, name, instance), NamedLayers(fs, LocalName(name), instance), section, key);
    NamedValue(fs, name, instance, section, key);
    NamedValue(fs, LocalName(name), instance, section, key);
  }

  // ---------------------------------------------------------------- the documented order

  /** The order that the loader's documentation promises for one file: both shared files before both
      instance files. The code takes the plain file's two layers before the local file's two. */
  function DocumentedLayers(fs: Files, name: string, instance: Option<string>): seq<Layer> {
    var plain, local := NamedLayers(fs, name, None), NamedLayers(fs, LocalName(name), None);
    plain + local
    + NamedLayers(fs.(shared := map[]), name, instance)
    + NamedLayers(fs.(shared := map[]), LocalName(name), instance)
  }

  lemma {:induction false} LastValueConcat(a: seq<Layer>, b: seq<Layer>, section: string, key: string)
    ensures LastValue(a + b, section, key)
         == if LastValue(b, section, key).Some? then LastValue(b, section, key) else LastValue(a, section, key)
  {
    if b == [] {
      assert a + b == a;
    } else {
      var n := |b| - 1;
      assert (a + b)[..|a| + n] == a + b[..n];
      LastValueConcat(a, b[..n], section, key);
    }
  }

  /** Swapping the two middle groups changes the value exactly when both hold the option, differently,
      and the last group does not. */
  lemma MiddleOrderMattersIff(
      a: seq<Layer>, b: seq<Layer>, c: seq<Layer>, d: seq<Layer>, section: string, key: string)
    ensures LastValue((a + b) + (c + d), section, key) == LastValue(a + c + b + d, section, key)
       <==> (LastValue(d, section, key).Some?
             || LastValue(b, section, key).None? || LastValue(c, section, key).None?
             || LastValue(b, section, key) == LastValue(c, section, key))
    ensures LastValue((a + b) + (c + d), section, key).Some? <==> LastValue(a + c + b + d, section, key).Some?
  {
    LastValueConcat(a + b, c + d, section, key);
    LastValueConcat(a, b, section, key);
    LastValueConcat(c, d, section, key);
    LastValueConcat(a + c + b, d, section, key);
    LastValueConcat(a + c, b, section, key);
    LastValueConcat(a, c, section, key);
  }

  lemma SharedThenOwn(fs: Files, mine: Files, name: string, instance: Option<string>)
    requires mine == fs.(shared := map[])
    ensures NamedLayers(fs, name, instance) == NamedLayers(fs, name, None) + NamedLayers(mine, name, instance)
  {
  }

  /** The code's layers of one file and its local variant. */
  function FileLayers(fs: Files, name: string, instance: Option<string>): seq<Layer> {
    NamedLayers(fs, name, instance) + NamedLayers(fs, LocalName(name), instance)
  }

  function DocumentedOrder(fs: Files, config: string, base: string, instance: Option<string>): seq<Layer> {
    if config == base then DocumentedLayers(fs, base, instance)
    else DocumentedLayers(fs, base, instance) + DocumentedLayers(fs, config, instance)
  }

  /** Unless the instance's plain file and the shared local file both set the option, differently, and
      the instance's local file does not, the two orders give one file the same value. */
  predicate OrderHarmless(fs: Files, name: string, instance: Option<string>, section: string, key: string) {
    var mine := fs.(shared := map[]);
    var own := LastValue(NamedLayers(mine, name, instance), section, key);
    var sharedLocal := LastValue(NamedLayers(fs, LocalName(name), None), section, key);
    || LastValue(NamedLayers(mine, LocalName(name), instance), section, key).Some?
    || own.None? || sharedLocal.None? || own == sharedLocal
  }

  lemma FileOrderAgreesIff(fs: Files, name: string, instance: Option<string>, section: string, key: string)
    ensures LastValue(FileLayers(fs, name, instance), section, key)
         == LastValue(DocumentedLayers(fs, name, instance), section, key)
       <==> OrderHarmless(fs, name, instance, section, key)
    ensures LastValue(FileLayers(fs, name, instance), section, key).Some?
       <==> LastValue(DocumentedLayers(fs, name, instance), section, key).Some?
  {
    var mine := fs.(shared := map[]);
    SharedThenOwn(fs, mine, name, instance);
    SharedThenOwn(fs, mine, LocalName(name), instance);
    MiddleOrderMattersIff(NamedLayers(fs, name, None), NamedLayers(mine, name, instance),
                          NamedLayers(fs, LocalName(name), None), NamedLayers(mine, LocalName(name), instance),
                          section, key);
  }

  /** Code and documentation agree on an option exactly when the order is harmless in the file group
      that decides it: the target's group if it sets the option at all, otherwise the base's. */
  lemma DocumentedOrderAgreesIff(
      fs: Files, config: string, base: string, instance: Option<string>, section: string, key: string)
    ensures Lookup(MergeAll(AllLayers(fs, config, base, instance)), section, key)
         == Lookup(MergeAll(DocumentedOrder(fs, config, base, instance)), section, key)
       <==> (if LastValue(FileLayers(fs, config, instance), section, key).Some?
             then OrderHarmless(fs, config, instance, section, key)
             else OrderHarmless(fs, base, instance, section, key))
  {
    MergeIsLastWins(AllLayers(fs, config, base, instance), section, key);
    MergeIsLastWins(DocumentedOrder(fs, config, base, instance), section, key);
    FileOrderAgreesIff(fs, config, instance, section, key);
    if config != base {
      FileOrderAgreesIff(fs, base, instance, section, key);
      ConcatAssociates(FileLayers(fs, base, instance), NamedLayers(fs, config, instance),
                       NamedLayers(fs, LocalName(config), instance));
      LastValueConcat(FileLayers(fs, base, instance), FileLayers(fs, config, instance), section, key);
      LastValueConcat(DocumentedLayers(fs, base, instance), DocumentedLayers(fs, config, instance), section, key);
    }
  }

  /** The files of a concrete disagreement: market.local.ini and the instance's own market.ini set the
      same option. */
  function TwoWriters(x: string, y: string): Files {
    Files(map["market.local.ini" := Parser(map[], map["s" := map["k" := x]])],
          map["market.ini" := Parser(map[], map["s" := map["k" := y]])])
  }

  lemma TwoWritersLayers(instance: string, x: string, y: string)
    ensures var fs := TwoWriters(x, y);
      var mine := fs.(shared := map[]);
      && NamedLayers(mine, "market.ini", Some(instance))
         == [Layer(InstanceLabel(instance, "market.ini"), fs.instanced["market.ini"])]
      && LocalName("market.ini") == "market.local.ini"
      && NamedLayers(fs, "market.local.ini", None) == [Layer("market.local.ini", fs.shared["market.local.ini"])]
      && NamedLayers(mine, "market.local.ini", Some(instance)) == []
  {
    assert LocalName("market.ini") == "market.local.ini";
    assert AllowsInstanceLayers("market.ini");
    assert "market.ini" != "market.local.ini";
  }

  lemma TwoWritersValues(x: string, y: string)
    ensures ValueAt(TwoWriters(x, y).instanced["market.ini"], "s", "k") == Some(y)
    ensures ValueAt(TwoWriters(x, y).shared["market.local.ini"], "s", "k") == Some(x)
  {
    assert Lower("k") == "k";
  }

  lemma DocumentedOrderCanDiffer(instance: string, x: string, y: string)
    requires x != y
    ensures Lookup(MergeAll(AllLayers(TwoWriters(x, y), "market.ini", "market.ini", Some(instance))), "s", "k")
         != Lookup(MergeAll(DocumentedOrder(TwoWriters(x, y), "market.ini", "market.ini", Some(instance))), "s", "k")
  {
    var fs := TwoWriters(x, y);
    TwoWritersLayers(instance, x, y);
    TwoWritersValues(x, y);
    OnlyLayer(Layer(InstanceLabel(instance, "market.ini"), fs.instanced["market.ini"]), "s", "k");
    OnlyLayer(Layer("market.local.ini", fs.shared["market.local.ini"]), "s", "k");
    assert !OrderHarmless(fs, "market.ini", Some(instance), "s", "k");
    DocumentedOrderAgreesIff(fs, "market.ini", "market.ini", Some(instance), "s", "k");
  }

  lemma OnlyLayer(l: Layer, section: string, key: string)
    ensures LastValue([l], section, key) == ValueAt(l.parser, section, key)
  {
    assert [l][..0] == [];
  }
}
