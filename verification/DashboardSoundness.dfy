/** The validator accepts exactly the well-typed definitions, and an accepted definition resolves soundly. */
module DashboardSoundness {
  import opened Wrappers
  import opened Bindings
  import opened Dashboard
  import Layout

  ghost predicate Sub(a: map<string, Type>, b: map<string, Type>) {
    forall name | name in a :: name in b && b[name] == a[name]
  }

  // ---- Each pass is silent exactly on what it accepts ----------------------------------------------

  lemma {:induction false} FiltersSilent(filters: seq<FilterDef>, n: nat)
    requires n <= |filters|
    ensures FilterProblems(filters, n) == [] <==>
              forall i | 0 <= i < n :: !IdTaken(filters, i, filters[i].id) && FilterType(filters[i].kind).Some?
  {
    hide FilterType, IdTaken;
    if n > 0 {
      FiltersSilent(filters, n - 1);
    }
  }

  lemma FiltersAccepted(filters: seq<FilterDef>)
    ensures FilterProblems(filters, |filters|) == [] <==> FiltersOk(filters)
  {
    FiltersSilent(filters, |filters|);
    hide FilterType, FilterProblems;
    if FiltersOk(filters) {
      forall i | 0 <= i < |filters| ensures !IdTaken(filters, i, filters[i].id) && FilterType(filters[i].kind).Some? {
        assert filters[i] in filters;
      }
    } else if forall i | 0 <= i < |filters| :: !IdTaken(filters, i, filters[i].id) && FilterType(filters[i].kind).Some? {
      forall i, j | 0 <= i < j < |filters| ensures filters[i].id != filters[j].id {
        assert !IdTaken(filters, j, filters[j].id);
      }
    }
  }

  lemma {:induction false} UnknownSilent(b: Block, i: nat, c: Component, n: nat)
    requires n <= |b.bind|
    ensures UnknownInputs(b, i, c, n) == [] <==> forall k | 0 <= k < n :: FindInput(c.inputs, b.bind[k].name).Some?
  {
    hide FindInput;
    if n > 0 {
      UnknownSilent(b, i, c, n - 1);
    }
  }

  lemma {:induction false} MissingSilent(b: Block, i: nat, c: Component, n: nat)
    requires n <= |c.inputs|
    ensures MissingInputs(b, i, c, n) == [] <==> forall k | 0 <= k < n :: !Missing(b, c.inputs[k])
  {
    hide Missing;
    if n > 0 {
      MissingSilent(b, i, c, n - 1);
    }
  }

  lemma {:induction false} TypesSilent(b: Block, i: nat, c: Component, filters: seq<FilterDef>,
      selections: map<string, Type>, n: nat)
    requires n <= |b.bind|
    ensures TypeProblems(b, i, c, filters, selections, n) == [] <==>
              forall k | 0 <= k < n :: BindingProblem(b.bind[k], c, filters, selections).None?
  {
    hide BindingProblem;
    if n > 0 {
      TypesSilent(b, i, c, filters, selections, n - 1);
    }
  }

  lemma TypesAccepted(b: Block, i: nat, c: Component, filters: seq<FilterDef>, selections: map<string, Type>)
    ensures TypeProblems(b, i, c, filters, selections, |b.bind|) == [] <==> BindingsOk(b, c, filters, selections)
  {
    hide BindingProblem, TypeProblems;
    TypesSilent(b, i, c, filters, selections, |b.bind|);
    assert forall bound | bound in b.bind :: exists k | 0 <= k < |b.bind| :: b.bind[k] == bound;
  }

  lemma BlockAccepted(d: Definition, i: nat, c: Component)
    requires i < |d.blocks|
    ensures BlockProblems(d, i, c) == [] <==> BlockOk(d, d.blocks[i], c)
  {
    var b := d.blocks[i];
    UnknownSilent(b, i, c, |b.bind|);
    MissingSilent(b, i, c, |c.inputs|);
    hide UnknownInputs, MissingInputs, FindInput, Missing;
    assert (forall bound | bound in b.bind :: FindInput(c.inputs, bound.name).Some?) <==>
           (forall k | 0 <= k < |b.bind| :: FindInput(c.inputs, b.bind[k].name).Some?);
    assert (forall inp | inp in c.inputs :: !Missing(b, inp)) <==> (forall k | 0 <= k < |c.inputs| :: !Missing(b, c.inputs[k]));
  }

  /** The first n inputs publish their selections under the types of the map. */
  ghost predicate PublishesUpTo(b: Block, c: Component, selections: map<string, Type>, n: nat)
    requires n <= |c.inputs|
  {
    forall k | 0 <= k < n && c.inputs[k].accepts.SelectionSource? ::
      SelectionName(b, c.inputs[k]).Some? && SelectionName(b, c.inputs[k]).value in selections
      && selections[SelectionName(b, c.inputs[k]).value] == PublishedType(c)
  }

  /** A silent pass over one block's selections keeps every earlier type and adds only what the block publishes. */
  lemma {:induction false} SelectionSilent(b: Block, i: nat, c: Component, selections: map<string, Type>, n: nat)
    requires n <= |c.inputs| && SelectionPass(b, i, c, selections, n).problems == []
    ensures var after := SelectionPass(b, i, c, selections, n).selections;
            && Sub(selections, after) && PublishesUpTo(b, c, after, n)
            && forall name | name in after :: name in selections || Publishes(b, c, name)
  {
    hide SelectionName, PublishedType;
    if n > 0 {
      SelectionSilent(b, i, c, selections, n - 1);
      assert c.inputs[n - 1] in c.inputs;
    }
  }

  /** If the block publishes as some map says, the pass is silent and stays within that map. */
  lemma {:induction false} SelectionWithin(b: Block, i: nat, c: Component, before: map<string, Type>,
      selections: map<string, Type>, n: nat)
    requires n <= |c.inputs| && PublishesAs(b, c, selections) && Sub(before, selections)
    ensures var pass := SelectionPass(b, i, c, before, n); pass.problems == [] && Sub(pass.selections, selections)
  {
    hide SelectionName, PublishedType;
    if n > 0 {
      SelectionWithin(b, i, c, before, selections, n - 1);
      assert c.inputs[n - 1] in c.inputs;
    }
  }

  ghost predicate KnownAt(d: Definition, reg: Registry, i: nat)
    requires i < |d.blocks|
  {
    d.blocks[i].component in reg
  }

  function ComponentAt(d: Definition, reg: Registry, i: nat): Component
    requires i < |d.blocks| && KnownAt(d, reg, i)
  {
    reg[d.blocks[i].component]
  }

  /** The first n blocks are in order and publish their selections under the types of the map. */
  ghost predicate BlocksOk(d: Definition, reg: Registry, selections: map<string, Type>, n: nat)
    requires n <= |d.blocks|
  {
    forall i | 0 <= i < n ::
      && KnownAt(d, reg, i) && BlockOk(d, d.blocks[i], ComponentAt(d, reg, i))
      && PublishesAs(d.blocks[i], ComponentAt(d, reg, i), selections)
  }

  ghost predicate SomePublishes(d: Definition, reg: Registry, name: string, n: nat)
    requires n <= |d.blocks|
  {
    exists i | 0 <= i < n :: KnownAt(d, reg, i) && Publishes(d.blocks[i], ComponentAt(d, reg, i), name)
  }

  lemma PublishesGrows(b: Block, c: Component, small: map<string, Type>, large: map<string, Type>)
    requires PublishesAs(b, c, small) && Sub(small, large)
    ensures PublishesAs(b, c, large)
  {
    hide SelectionName, PublishedType;
  }

  lemma PublishesAll(b: Block, c: Component, selections: map<string, Type>)
    requires PublishesUpTo(b, c, selections, |c.inputs|)
    ensures PublishesAs(b, c, selections)
  {
    hide SelectionName, PublishedType;
    forall inp | inp in c.inputs && inp.accepts.SelectionSource?
      ensures SelectionName(b, inp).Some? && SelectionName(b, inp).value in selections
              && selections[SelectionName(b, inp).value] == PublishedType(c)
    {
      var k :| 0 <= k < |c.inputs| && c.inputs[k] == inp;
    }
  }

  /** The n-th block joins the ones before it. */
  lemma BlocksOkStep(d: Definition, reg: Registry, small: map<string, Type>, large: map<string, Type>, n: nat)
    requires 0 < n <= |d.blocks| && BlocksOk(d, reg, small, n - 1) && Sub(small, large) && KnownAt(d, reg, n - 1)
    requires BlockOk(d, d.blocks[n - 1], ComponentAt(d, reg, n - 1)) && PublishesAs(d.blocks[n - 1], ComponentAt(d, reg, n - 1), large)
    ensures BlocksOk(d, reg, large, n)
  {
    hide BlockOk, PublishesAs, Sub;
    forall i | 0 <= i < n - 1 ensures PublishesAs(d.blocks[i], ComponentAt(d, reg, i), large) {
      PublishesGrows(d.blocks[i], ComponentAt(d, reg, i), small, large);
    }
  }

  lemma SomePublishesStep(d: Definition, reg: Registry, name: string, n: nat)
    requires 0 < n <= |d.blocks| && KnownAt(d, reg, n - 1)
    requires SomePublishes(d, reg, name, n - 1) || Publishes(d.blocks[n - 1], ComponentAt(d, reg, n - 1), name)
    ensures SomePublishes(d, reg, name, n)
  {
    hide Publishes;
  }

  /** A silent pass over n blocks was silent over the first n - 1 and over the last. */
  lemma BlockPassSplits(d: Definition, reg: Registry, n: nat)
    requires 0 < n <= |d.blocks| && BlockPass(d, reg, n).problems == []
    ensures KnownAt(d, reg, n - 1) && BlockPass(d, reg, n - 1).problems == []
    ensures var c := ComponentAt(d, reg, n - 1);
            var after := SelectionPass(d.blocks[n - 1], n - 1, c, BlockPass(d, reg, n - 1).selections, |c.inputs|);
            BlockProblems(d, n - 1, c) == [] && after.problems == [] && BlockPass(d, reg, n).selections == after.selections
  {
    hide SelectionPass, BlockProblems;
  }

  lemma {:induction false} BlocksSilent(d: Definition, reg: Registry, n: nat)
    requires n <= |d.blocks| && BlockPass(d, reg, n).problems == []
    ensures var selections := BlockPass(d, reg, n).selections;
            BlocksOk(d, reg, selections, n) && forall name | name in selections :: SomePublishes(d, reg, name, n)
  {
    hide SelectionPass, BlockProblems, BlockOk, Publishes, PublishesAs, Sub, PublishesUpTo, SomePublishes;
    if n > 0 {
      hide BlockPass, BlocksOk, KnownAt, ComponentAt;
      BlockPassSplits(d, reg, n);
      BlocksSilent(d, reg, n - 1);
      var before, b, c := BlockPass(d, reg, n - 1), d.blocks[n - 1], ComponentAt(d, reg, n - 1);
      var after := SelectionPass(b, n - 1, c, before.selections, |c.inputs|);
      SelectionSilent(b, n - 1, c, before.selections, |c.inputs|);
      PublishesAll(b, c, after.selections);
      BlockAccepted(d, n - 1, c);
      BlocksOkStep(d, reg, before.selections, after.selections, n);
      forall name | name in after.selections ensures SomePublishes(d, reg, name, n) {
        SomePublishesStep(d, reg, name, n);
      }
    }
  }

  lemma {:induction false} BlocksWithin(d: Definition, reg: Registry, selections: map<string, Type>, n: nat)
    requires n <= |d.blocks| && BlocksOk(d, reg, selections, n)
    ensures BlockPass(d, reg, n).problems == [] && Sub(BlockPass(d, reg, n).selections, selections)
  {
    if n > 0 {
      hide SelectionPass, BlockProblems, BlockOk, PublishesAs;
      BlocksWithin(d, reg, selections, n - 1);
      var c := ComponentAt(d, reg, n - 1);
      BlockAccepted(d, n - 1, c);
      SelectionWithin(d.blocks[n - 1], n - 1, c, BlockPass(d, reg, n - 1).selections, selections, |c.inputs|);
    }
  }

  lemma {:induction false} TypePassSilent(d: Definition, reg: Registry, selections: map<string, Type>, n: nat)
    requires n <= |d.blocks| && forall i | 0 <= i < n :: KnownAt(d, reg, i)
    ensures TypePass(d, reg, selections, n) == [] <==>
              forall i | 0 <= i < n :: BindingsOk(d.blocks[i], ComponentAt(d, reg, i), d.filters, selections)
  {
    if n > 0 {
      hide TypeProblems, BindingsOk;
      TypePassSilent(d, reg, selections, n - 1);
      TypesAccepted(d.blocks[n - 1], n - 1, ComponentAt(d, reg, n - 1), d.filters, selections);
      assert KnownAt(d, reg, n - 1);
    }
  }

  lemma SameMaps(a: map<string, Type>, b: map<string, Type>)
    requires Sub(a, b) && forall name | name in b :: name in a
    ensures a == b
  {
  }

  lemma PublishedNames(d: Definition, reg: Registry, selections: map<string, Type>, name: string)
    requires BlocksOk(d, reg, selections, |d.blocks|) && SomePublishes(d, reg, name, |d.blocks|)
    ensures name in selections
  {
    hide SelectionName, PublishedType, BlockOk;
  }

  ghost predicate Typings(d: Definition, reg: Registry, selections: map<string, Type>) {
    && BlocksOk(d, reg, selections, |d.blocks|)
    && (forall i | 0 <= i < |d.blocks| :: KnownAt(d, reg, i) && BindingsOk(d.blocks[i], ComponentAt(d, reg, i), d.filters, selections))
    && (forall name | name in selections :: SomePublishes(d, reg, name, |d.blocks|))
  }

  lemma PassesChecksIs(d: Definition, reg: Registry, selections: map<string, Type>)
    ensures PassesChecks(d, reg, selections) <==> HeaderProblems(d) == [] && FiltersOk(d.filters) && Typings(d, reg, selections)
  {
    hide HeaderProblems, FiltersOk, BlockOk, PublishesAs, BindingsOk, Publishes;
    if Typings(d, reg, selections) && HeaderProblems(d) == [] && FiltersOk(d.filters) {
      forall i | 0 <= i < |d.blocks|
        ensures d.blocks[i].component in reg
        ensures var b, c := d.blocks[i], reg[d.blocks[i].component];
                BlockOk(d, b, c) && PublishesAs(b, c, selections) && BindingsOk(b, c, d.filters, selections)
      {
        assert KnownAt(d, reg, i);
      }
    }
  }

  /** A definition that passes the checks under some typing of its selections is accepted, with that typing. */
  lemma PassingIsAccepted(d: Definition, reg: Registry, selections: map<string, Type>)
    requires PassesChecks(d, reg, selections)
    ensures Problems(d, reg) == [] && Selections(d, reg) == selections
  {
    PassesChecksIs(d, reg, selections);
    hide PassesChecks, HeaderProblems, FiltersOk, FilterProblems, BlockPass, TypePass, BindingsOk, SomePublishes, BlocksOk, Sub;
    FiltersAccepted(d.filters);
    BlocksWithin(d, reg, selections, |d.blocks|);
    BlocksSilent(d, reg, |d.blocks|);
    forall name | name in selections ensures name in Selections(d, reg) {
      PublishedNames(d, reg, Selections(d, reg), name);
    }
    SameMaps(Selections(d, reg), selections);
    TypePassSilent(d, reg, selections, |d.blocks|);
  }

  lemma AcceptedPasses(d: Definition, reg: Registry)
    requires Problems(d, reg) == []
    ensures PassesChecks(d, reg, Selections(d, reg))
  {
    var selections := Selections(d, reg);
    assert HeaderProblems(d) == [] && FilterProblems(d.filters, |d.filters|) == []
           && BlockPass(d, reg, |d.blocks|).problems == [] && TypePass(d, reg, selections, |d.blocks|) == [];
    hide PassesChecks, HeaderProblems, FiltersOk, FilterProblems, BlockPass, TypePass, BindingsOk, SomePublishes;
    FiltersAccepted(d.filters);
    BlocksSilent(d, reg, |d.blocks|);
    TypePassSilent(d, reg, selections, |d.blocks|);
    PassesChecksIs(d, reg, selections);
  }

  // ---- Well-typed definitions ------------------------------------------------------------------------

  ghost predicate IsInputAt(inputs: seq<InputSpec>, name: string, inp: InputSpec, k: int) {
    0 <= k < |inputs| && inputs[k] == inp && inp.name == name && forall j | k < j < |inputs| :: inputs[j].name != name
  }

  /** The declared input of the name; of several the last. */
  ghost predicate IsInput(inputs: seq<InputSpec>, name: string, inp: InputSpec) {
    exists k :: IsInputAt(inputs, name, inp, k)
  }

  lemma {:induction false} FindInputIs(inputs: seq<InputSpec>, name: string, inp: InputSpec)
    ensures FindInput(inputs, name) == Some(inp) <==> IsInput(inputs, name, inp)
  {
    if inputs != [] {
      var n := |inputs| - 1;
      var front := inputs[..n];
      FindInputIs(front, name, inp);
      if inputs[n].name == name {
        assert inputs[n] == inp ==> IsInputAt(inputs, name, inp, n);
      } else {
        forall k ensures IsInputAt(front, name, inp, k) <==> IsInputAt(inputs, name, inp, k) {
        }
      }
    }
  }

  /** The value is bound under the name, and nothing is before it. */
  ghost predicate IsBound(bind: seq<Binding>, name: string, v: Json) {
    exists k | 0 <= k < |bind| :: bind[k] == Binding(name, v) && forall j | 0 <= j < k :: bind[j].name != name
  }

  lemma {:induction false} BoundToIs(bind: seq<Binding>, name: string, v: Json)
    ensures BoundTo(bind, name) == Some(v) <==> IsBound(bind, name, v)
  {
    if bind != [] {
      var rest := bind[1..];
      BoundToIs(rest, name, v);
      if k :| 0 <= k < |rest| && rest[k] == Binding(name, v) && forall j | 0 <= j < k :: rest[j].name != name {
        assert bind[k + 1] == rest[k];
      }
      if k :| 0 <= k < |bind| && bind[k] == Binding(name, v) && forall j | 0 <= j < k :: bind[j].name != name {
        assert k > 0 ==> rest[k - 1] == bind[k] && bind[0].name != name;
      }
    }
  }

  /** The block binds the input to a literal, non-empty text: the name of a selection. */
  ghost predicate Names(b: Block, inp: InputSpec, s: string) {
    IsBound(b.bind, inp.name, JStr(s)) && s != "" && s[0] != '$'
  }

  lemma SelectionNameIs(b: Block, inp: InputSpec, s: string)
    ensures SelectionName(b, inp) == Some(s) <==> Names(b, inp, s)
  {
    BoundToIs(b.bind, inp.name, JStr(s));
  }

  /** Known inputs only, all required ones, and a span that fits the grid; no component that scans traces. */
  ghost predicate Fits(d: Definition, b: Block, c: Component) {
    && !c.traceRequired && 1 <= b.span <= d.columns
    && (forall bound | bound in b.bind :: exists inp | inp in c.inputs :: inp.name == bound.name)
    && (forall inp | inp in c.inputs && inp.required :: exists bound | bound in b.bind :: bound.name == inp.name)
  }

  /** Every selection input names a selection, which has the type the component publishes, or any. */
  ghost predicate PublishesWell(b: Block, c: Component, selections: map<string, Type>) {
    forall inp | inp in c.inputs && inp.accepts == SelectionSource ::
      exists s | s in selections :: Names(b, inp, s) && (c.selectionType == Some(selections[s]) || (c.selectionType == None && selections[s] == AnyType))
  }

  /** Every other binding is null, or of a type its input accepts. */
  ghost predicate BindsWell(b: Block, c: Component, filters: seq<FilterDef>, selections: map<string, Type>) {
    forall bound, inp | bound in b.bind && IsInput(c.inputs, bound.name, inp) && inp.accepts != SelectionSource && bound.value != JNull ::
      var typing := BindingType(bound.value, filters, selections);
      typing.Success? && CheckInput(inp, typing.value)
  }

  /** A definition of version 3 on a grid of 12 columns for registry 1, all of whose parts fit together. */
  ghost predicate WellTyped(d: Definition, reg: Registry, selections: map<string, Type>) {
    && d.version == 3 && d.gridType == "grid" && d.columns == 12 && (d.registryVersion == None || d.registryVersion == Some(1))
    && (forall i, j | 0 <= i < j < |d.filters| :: d.filters[i].id != d.filters[j].id)
    && (forall f | f in d.filters :: FilterType(f.kind).Some?)
    && BlocksWell(d, reg, selections) && SelectionsNamed(d, reg, selections)
  }

  ghost predicate BlocksWell(d: Definition, reg: Registry, selections: map<string, Type>) {
    forall i | 0 <= i < |d.blocks| :: BlockWell(d, d.blocks[i], reg, selections)
  }

  /** Only what some block publishes is a selection. */
  ghost predicate SelectionsNamed(d: Definition, reg: Registry, selections: map<string, Type>) {
    forall name | name in selections :: exists i | 0 <= i < |d.blocks| :: PublishesName(d.blocks[i], reg, name)
  }

  ghost predicate BlockWell(d: Definition, b: Block, reg: Registry, selections: map<string, Type>) {
    && b.component in reg && Fits(d, b, reg[b.component]) && PublishesWell(b, reg[b.component], selections)
    && BindsWell(b, reg[b.component], d.filters, selections)
  }

  ghost predicate PublishesName(b: Block, reg: Registry, name: string) {
    b.component in reg && exists inp | inp in reg[b.component].inputs && inp.accepts == SelectionSource :: Names(b, inp, name)
  }

  lemma FitsIs(d: Definition, b: Block, c: Component)
    ensures BlockOk(d, b, c) <==> Fits(d, b, c)
  {
    assert forall bound | bound in b.bind ::
        FindInput(c.inputs, bound.name).Some? <==> exists inp | inp in c.inputs :: inp.name == bound.name;
    assert forall inp | inp in c.inputs :: BoundTo(b.bind, inp.name).Some? <==> exists bound | bound in b.bind :: bound.name == inp.name;
  }

  lemma PublishesWellIs(b: Block, c: Component, selections: map<string, Type>)
    ensures PublishesAs(b, c, selections) <==> PublishesWell(b, c, selections)
  {
    forall inp, s ensures SelectionName(b, inp) == Some(s) <==> Names(b, inp, s) {
      SelectionNameIs(b, inp, s);
    }
    hide SelectionName, Names;
    assert forall inp, s, t | Names(b, inp, s) && Names(b, inp, t) :: s == t;
  }

  lemma PublishesNameIs(b: Block, reg: Registry, name: string)
    ensures BlockPublishes(b, reg, name) <==> PublishesName(b, reg, name)
  {
    forall inp ensures SelectionName(b, inp) == Some(name) <==> Names(b, inp, name) {
      SelectionNameIs(b, inp, name);
    }
    hide SelectionName, Names;
  }

  lemma BindsWellIs(b: Block, c: Component, filters: seq<FilterDef>, selections: map<string, Type>)
    ensures BindingsOk(b, c, filters, selections) <==> BindsWell(b, c, filters, selections)
  {
    forall bound: Binding, inp ensures FindInput(c.inputs, bound.name) == Some(inp) <==> IsInput(c.inputs, bound.name, inp) {
      FindInputIs(c.inputs, bound.name, inp);
    }
    hide BindingType, CheckInput, IsInput, FindInput;
  }

  lemma BlockWellIs(d: Definition, b: Block, reg: Registry, selections: map<string, Type>)
    ensures BlockPasses(d, b, reg, selections) <==> BlockWell(d, b, reg, selections)
  {
    if b.component in reg {
      FitsIs(d, b, reg[b.component]);
      PublishesWellIs(b, reg[b.component], selections);
      BindsWellIs(b, reg[b.component], d.filters, selections);
    }
    hide BlockOk, Fits, PublishesAs, PublishesWell, BindingsOk, BindsWell;
  }

  lemma BlocksWellIs(d: Definition, reg: Registry, selections: map<string, Type>)
    ensures BlocksPass(d, reg, selections) <==> BlocksWell(d, reg, selections)
  {
    forall i | 0 <= i < |d.blocks|
      ensures BlockPasses(d, d.blocks[i], reg, selections) <==> BlockWell(d, d.blocks[i], reg, selections)
    {
      BlockWellIs(d, d.blocks[i], reg, selections);
    }
    hide BlockPasses, BlockWell;
  }

  lemma SelectionsNamedIs(d: Definition, reg: Registry, selections: map<string, Type>)
    ensures SelectionsPublished(d, reg, selections) <==> SelectionsNamed(d, reg, selections)
  {
    forall i, name | 0 <= i < |d.blocks|
      ensures BlockPublishes(d.blocks[i], reg, name) <==> PublishesName(d.blocks[i], reg, name)
    {
      PublishesNameIs(d.blocks[i], reg, name);
    }
    hide BlockPublishes, PublishesName;
  }

  lemma PassesChecksMeans(d: Definition, reg: Registry, selections: map<string, Type>)
    ensures PassesChecks(d, reg, selections) <==> WellTyped(d, reg, selections)
  {
    BlocksWellIs(d, reg, selections);
    SelectionsNamedIs(d, reg, selections);
    HeaderIs(d);
    hide BlocksPass, BlocksWell, SelectionsPublished, SelectionsNamed, HeaderProblems, FilterType;
  }

  lemma HeaderIs(d: Definition)
    ensures HeaderProblems(d) == [] <==>
              d.version == 3 && d.gridType == "grid" && d.columns == 12 && (d.registryVersion == None || d.registryVersion == Some(1))
  {
  }

  /** A well-typed definition has only one typing of its selections, and the validator finds it. */
  lemma WellTypedIsAccepted(d: Definition, reg: Registry, selections: map<string, Type>)
    requires WellTyped(d, reg, selections)
    ensures Problems(d, reg) == [] && Selections(d, reg) == selections
  {
    PassesChecksMeans(d, reg, selections);
    PassingIsAccepted(d, reg, selections);
  }

  /** The validator accepts a definition exactly when its selections can be typed so that everything in it is well typed. */
  lemma AcceptsExactly(d: Definition, reg: Registry)
    ensures Problems(d, reg) == [] <==> exists selections :: WellTyped(d, reg, selections)
  {
    if Problems(d, reg) == [] {
      AcceptedPasses(d, reg);
      PassesChecksMeans(d, reg, Selections(d, reg));
    }
    hide Problems, WellTyped;
    if selections :| WellTyped(d, reg, selections) {
      WellTypedIsAccepted(d, reg, selections);
    }
  }

  // ---- Soundness of resolution ---------------------------------------------------------------------

  /** A dictionary has no key twice. */
  ghost predicate IsDict(bind: seq<Binding>) { forall i, j | 0 <= i < j < |bind| :: bind[i].name != bind[j].name }

  lemma {:induction false} BoundToEntry(bind: seq<Binding>, k: nat)
    requires IsDict(bind) && k < |bind|
    ensures BoundTo(bind, bind[k].name) == Some(bind[k].value)
  {
    if k > 0 {
      assert bind[0].name != bind[k].name;
      BoundToEntry(bind[1..], k - 1);
    }
  }

  /** A published selection's name reaches the component as written. */
  lemma SelectionDelivers(isA: (Json, Type) -> bool, b: Block, inp: InputSpec, v: Json, env: Env)
    requires inp.accepts.SelectionSource? && SelectionName(b, inp).Some? && BoundTo(b.bind, inp.name) == Some(v)
    ensures ResolveValue(v, env) == Success(v) && Delivers(isA, inp, v, env, v)
  {
    ValuesResolve(v, env);
  }

  /** One binding of an accepted block. */
  lemma BindingDelivers(isA: (Json, Type) -> bool, b: Block, c: Component, filters: seq<FilterDef>,
      selections: map<string, Type>, env: Env, k: nat)
    requires TypedEnv(isA, filters, selections, env) && FilterTypesKnown(filters)
    requires IsDict(b.bind) && k < |b.bind| && FindInput(c.inputs, b.bind[k].name).Some?
    requires PublishesAs(b, c, selections) && BindingsOk(b, c, filters, selections)
    ensures var v := b.bind[k].value;
            ResolveValue(v, env).Success? && Delivers(isA, FindInput(c.inputs, b.bind[k].name).value, v, env, ResolveValue(v, env).value)
  {
    hide TypedEnv, ResolveValue, SelectionName, BindingType, CheckInput, Delivers;
    var inp, v := FindInput(c.inputs, b.bind[k].name).value, b.bind[k].value;
    BoundToEntry(b.bind, k);
    if inp.accepts.SelectionSource? {
      SelectionDelivers(isA, b, inp, v, env);
    } else {
      assert BindingProblem(b.bind[k], c, filters, selections).None?;
      CheckedBindingResolves(isA, inp, v, filters, selections, env);
    }
  }

  /** What resolving a block delivers to its component. */
  ghost predicate BindDelivered(isA: (Json, Type) -> bool, b: Block, c: Component, env: Env, bind: seq<Binding>, n: nat) {
    && n <= |b.bind| && |bind| == n
    && forall k | 0 <= k < n ::
         && bind[k].name == b.bind[k].name
         && FindInput(c.inputs, bind[k].name).Some?
         && Delivers(isA, FindInput(c.inputs, bind[k].name).value, b.bind[k].value, env, bind[k].value)
  }

  ghost predicate BlockTyped(isA: (Json, Type) -> bool, b: Block, c: Component, filters: seq<FilterDef>,
      selections: map<string, Type>, env: Env) {
    && TypedEnv(isA, filters, selections, env) && FilterTypesKnown(filters) && IsDict(b.bind)
    && (forall bound | bound in b.bind :: FindInput(c.inputs, bound.name).Some?)
    && PublishesAs(b, c, selections) && BindingsOk(b, c, filters, selections)
  }

  lemma {:induction false} BindResolves(isA: (Json, Type) -> bool, b: Block, c: Component,
      filters: seq<FilterDef>, selections: map<string, Type>, env: Env, n: nat)
    requires BlockTyped(isA, b, c, filters, selections, env) && n <= |b.bind|
    ensures ResolveBind(b.bind, env, n).Success? && BindDelivered(isA, b, c, env, ResolveBind(b.bind, env, n).value, n)
  {
    if n > 0 {
      assert b.bind[n - 1] in b.bind;
      BindingDelivers(isA, b, c, filters, selections, env, n - 1);
      BindResolves(isA, b, c, filters, selections, env, n - 1);
      hide ResolveValue, Delivers, FindInput, BlockTyped;
    }
  }

  /** Every block resolves, in its place, to what its component expects. */
  ghost predicate BlockDelivered(isA: (Json, Type) -> bool, b: Block, reg: Registry, env: Env, at: Layout.Position, r: ResolvedBlock) {
    && b.component in reg && r.component == b.component && r.span == b.span && r.at == at
    && BindDelivered(isA, b, reg[b.component], env, r.bind, |b.bind|)
  }

  ghost predicate Environment(isA: (Json, Type) -> bool, d: Definition, reg: Registry, env: Env) {
    TypedEnv(isA, d.filters, Selections(d, reg), env) && forall i | 0 <= i < |d.blocks| :: IsDict(d.blocks[i].bind)
  }

  lemma AcceptedBlock(isA: (Json, Type) -> bool, d: Definition, reg: Registry, env: Env, i: nat)
    requires Problems(d, reg) == [] && Environment(isA, d, reg, env) && i < |d.blocks|
    ensures d.blocks[i].component in reg
    ensures BlockTyped(isA, d.blocks[i], reg[d.blocks[i].component], d.filters, Selections(d, reg), env)
    ensures 1 <= d.blocks[i].span <= d.columns
  {
    hide Problems, TypedEnv, PublishesAs, BindingsOk, Missing, Selections, HeaderProblems, Publishes, IsDict;
    AcceptedPasses(d, reg);
  }

  lemma {:induction false} BlocksResolve(isA: (Json, Type) -> bool, d: Definition, reg: Registry, env: Env, n: nat)
    requires Problems(d, reg) == [] && Environment(isA, d, reg, env) && n <= |d.blocks|
    ensures var r := ResolveBlocks(d, reg, env, Places(d), n);
            r.Success? && |r.value| == n && forall i | 0 <= i < n :: BlockDelivered(isA, d.blocks[i], reg, env, Places(d)[i], r.value[i])
  {
    hide Problems, Environment, Places, ResolveBind, BindDelivered, BlockTyped;
    if n > 0 {
      var b := d.blocks[n - 1];
      BlocksResolve(isA, d, reg, env, n - 1);
      AcceptedBlock(isA, d, reg, env, n - 1);
      BindResolves(isA, b, reg[b.component], d.filters, Selections(d, reg), env, |b.bind|);
    }
  }

  /**
   Soundness: an accepted definition resolves without error in every environment whose filters,
   selections and run hold values of their declared types or null; every resolved binding is what the
   written value stands for, be it null, a literal of its input's shape or a value of its input's type;
   and no two blocks overlap on the grid.
  */
  lemma BindingSoundness(isA: (Json, Type) -> bool, d: Definition, reg: Registry, env: Env)
    requires Problems(d, reg) == [] && Environment(isA, d, reg, env)
    ensures var r := ResolveBlocks(d, reg, env, Places(d), |d.blocks|);
            && r.Success? && |r.value| == |d.blocks|
            && forall i | 0 <= i < |d.blocks| :: BlockDelivered(isA, d.blocks[i], reg, env, Places(d)[i], r.value[i])
    ensures Layout.Placement(Spans(d.blocks), d.columns, Places(d))
  {
    BlocksResolve(isA, d, reg, env, |d.blocks|);
    hide Problems, ResolveBlocks, BlockDelivered, Environment;
    forall i | 0 <= i < |d.blocks| ensures 1 <= d.blocks[i].span <= d.columns {
      AcceptedBlock(isA, d, reg, env, i);
    }
    Layout.LayoutIsPlacement(Spans(d.blocks), d.columns);
  }

  // ---- Null bindings -------------------------------------------------------------------------------

  function WithNull(b: Block, k: nat): Block
    requires k < |b.bind|
  {
    b.(bind := b.bind[k := Binding(b.bind[k].name, JNull)])
  }

  lemma {:induction false} BoundToWithNull(bind: seq<Binding>, k: nat, name: string)
    requires IsDict(bind) && k < |bind|
    ensures BoundTo(bind[k := Binding(bind[k].name, JNull)], name)
         == if name == bind[k].name then Some(JNull) else BoundTo(bind, name)
  {
    var nulled := bind[k := Binding(bind[k].name, JNull)];
    if k > 0 {
      assert bind[0].name != bind[k].name;
      assert nulled[1..] == bind[1..][k - 1 := Binding(bind[k].name, JNull)];
      BoundToWithNull(bind[1..], k - 1, name);
    } else {
      assert nulled[1..] == bind[1..];
      if name == bind[k].name {
        assert BoundTo(nulled, name) == Some(JNull);
      }
    }
  }

  ghost predicate Acceptable(d: Definition, b: Block, c: Component, selections: map<string, Type>) {
    BlockOk(d, b, c) && PublishesAs(b, c, selections) && BindingsOk(b, c, d.filters, selections)
  }

  /** The name is that of an input through which the component publishes a selection. */
  ghost predicate NamesSelection(c: Component, name: string) {
    exists inp | inp in c.inputs :: inp.name == name && inp.accepts.SelectionSource?
  }

  lemma NullKeepsAcceptable(d: Definition, b: Block, c: Component, selections: map<string, Type>, k: nat)
    requires IsDict(b.bind) && k < |b.bind| && Acceptable(d, b, c, selections) && !NamesSelection(c, b.bind[k].name)
    ensures Acceptable(d, WithNull(b, k), c, selections)
  {
    var nulled := WithNull(b, k);
    BoundToEntry(b.bind, k);
    forall inp | inp in c.inputs ensures !Missing(nulled, inp) {
      assert !Missing(b, inp);
      BoundToWithNull(b.bind, k, inp.name);
    }
    forall inp | inp in c.inputs && inp.accepts.SelectionSource? ensures SelectionName(nulled, inp) == SelectionName(b, inp) {
      BoundToWithNull(b.bind, k, inp.name);
    }
    forall j | 0 <= j < |nulled.bind|
      ensures FindInput(c.inputs, nulled.bind[j].name).Some? && BindingProblem(nulled.bind[j], c, d.filters, selections).None?
    {
      assert b.bind[j] in b.bind;
    }
  }

  /**
   Replacing a bound value by null keeps a block acceptable exactly if the value does not name a
   selection, even where the input is required: the validator asks for the key, not for a value.
  */
  lemma NullKeepsBlockAcceptable(d: Definition, b: Block, c: Component, selections: map<string, Type>, k: nat)
    requires IsDict(b.bind) && k < |b.bind| && Acceptable(d, b, c, selections)
    ensures Acceptable(d, WithNull(b, k), c, selections) <==> !NamesSelection(c, b.bind[k].name)
  {
    if NamesSelection(c, b.bind[k].name) {
      var inp :| inp in c.inputs && inp.name == b.bind[k].name && inp.accepts.SelectionSource?;
      BoundToWithNull(b.bind, k, inp.name);
      assert SelectionName(WithNull(b, k), inp).None?;
    } else {
      NullKeepsAcceptable(d, b, c, selections, k);
    }
  }

  /** A selection input must be bound, and to a name, whether or not it is declared as required. */
  lemma SelectionMustBeNamed(d: Definition, reg: Registry, i: nat, inp: InputSpec)
    requires i < |d.blocks| && d.blocks[i].component in reg && inp in reg[d.blocks[i].component].inputs
    requires inp.accepts.SelectionSource? && SelectionName(d.blocks[i], inp).None?
    ensures Problems(d, reg) != []
  {
    hide Problems, BlockOk, BindingsOk, SelectionName, HeaderProblems, FiltersOk, Publishes, Selections;
    if Problems(d, reg) == [] {
      AcceptedPasses(d, reg);
    }
  }
}
