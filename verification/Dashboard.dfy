/**
 Validating and resolving dashboard definitions: the validator accumulates problems in passes,
 it accepts exactly the definitions that are well typed, and a well-typed definition resolves.
*/
module Dashboard {
  import opened Wrappers
  import opened Bindings
  import Layout

  const DEFINITION_VERSION := 3
  const REGISTRY_VERSION := 1
  const GRID_COLUMNS := 12

  datatype Component = Component(inputs: seq<InputSpec>, selectionType: Option<Type>, traceRequired: bool)

  type Registry = map<string, Component>

  datatype Binding = Binding(name: string, value: Json)
  datatype Block = Block(component: string, span: int, bind: seq<Binding>)

  datatype Definition = Definition(
    version: int, gridType: string, columns: int, filters: seq<FilterDef>, blocks: seq<Block>, registryVersion: Option<int>)

  datatype Place =
    | AtVersion | AtLayoutType | AtColumns | AtRegistry
    | AtFilterId(i: nat) | AtFilterType(i: nat)
    | AtComponent(i: nat) | AtSpan(i: nat) | AtBind(i: nat) | AtInput(i: nat, name: string)

  datatype Problem = Problem(place: Place, code: Code)

  /** A dictionary keeps the last of several inputs of one name. */
  function FindInput(inputs: seq<InputSpec>, name: string): (inp: Option<InputSpec>)
    ensures inp.Some? ==> inp.value in inputs && inp.value.name == name
    ensures inp.None? ==> forall j | j in inputs :: j.name != name
  {
    if inputs == [] then None
    else if inputs[|inputs| - 1].name == name then Some(inputs[|inputs| - 1])
    else FindInput(inputs[..|inputs| - 1], name)
  }

  function BoundTo(bind: seq<Binding>, name: string): (v: Option<Json>)
    ensures v.None? <==> forall b | b in bind :: b.name != name
  {
    if bind == [] then None else if bind[0].name == name then Some(bind[0].value) else BoundTo(bind[1..], name)
  }

  function If(test: bool, place: Place, code: Code): seq<Problem> { if test then [Problem(place, code)] else [] }

  // ---- The passes --------------------------------------------------------------------------------

  function HeaderProblems(d: Definition): seq<Problem> {
    If(d.version != DEFINITION_VERSION, AtVersion, UnsupportedVersion)
    + If(d.gridType != "grid", AtLayoutType, GridViolation)
    + If(d.columns != GRID_COLUMNS, AtColumns, GridViolation)
    + If(d.registryVersion.Some? && d.registryVersion.value != REGISTRY_VERSION, AtRegistry, RegistryMismatch)
  }

  predicate IdTaken(filters: seq<FilterDef>, n: nat, id: string)
    requires n <= |filters|
  {
    exists j | 0 <= j < n :: filters[j].id == id
  }

  function FilterProblems(filters: seq<FilterDef>, n: nat): seq<Problem>
    requires n <= |filters|
  {
    if n == 0 then []
    else
      var f := filters[n - 1];
      FilterProblems(filters, n - 1) +
      if IdTaken(filters, n - 1, f.id) then [Problem(AtFilterId(n - 1), DuplicateFilterId)]
      else If(FilterType(f.kind).None?, AtFilterType(n - 1), UnknownFilterType)
  }

  function UnknownInputs(b: Block, i: nat, c: Component, n: nat): seq<Problem>
    requires n <= |b.bind|
  {
    if n == 0 then []
    else
      UnknownInputs(b, i, c, n - 1)
      + If(FindInput(c.inputs, b.bind[n - 1].name).None?, AtInput(i, b.bind[n - 1].name), UnknownInput)
  }

  predicate Missing(b: Block, inp: InputSpec) { inp.required && BoundTo(b.bind, inp.name).None? }

  function MissingInputs(b: Block, i: nat, c: Component, n: nat): seq<Problem>
    requires n <= |c.inputs|
  {
    if n == 0 then []
    else MissingInputs(b, i, c, n - 1) + If(Missing(b, c.inputs[n - 1]), AtBind(i), MissingRequiredInput)
  }

  datatype Pass = Pass(problems: seq<Problem>, selections: map<string, Type>)

  /** The selection a block publishes through an input: a literal, non-empty name. */
  function SelectionName(b: Block, inp: InputSpec): Option<string> {
    match BoundTo(b.bind, inp.name)
    case Some(JStr(s)) => if s == "" || StartsWith(s, "$") then None else Some(s)
    case _ => None
  }

  function PublishedType(c: Component): Type { if c.selectionType.Some? then c.selectionType.value else AnyType }

  predicate Conflicts(selections: map<string, Type>, name: string, t: Type) { name in selections && selections[name] != t }

  function SelectionPass(b: Block, i: nat, c: Component, selections: map<string, Type>, n: nat): Pass
    requires n <= |c.inputs|
  {
    if n == 0 then Pass([], selections)
    else
      var prev, inp := SelectionPass(b, i, c, selections, n - 1), c.inputs[n - 1];
      if !inp.accepts.SelectionSource? then prev
      else
        match SelectionName(b, inp)
        case None => Pass(prev.problems + [Problem(AtInput(i, inp.name), TypeMismatch)], prev.selections)
        case Some(name) =>
          Pass(prev.problems + If(Conflicts(prev.selections, name, PublishedType(c)), AtInput(i, inp.name), ConflictingSelection),
               prev.selections[name := PublishedType(c)])
  }

  function BlockProblems(d: Definition, i: nat, c: Component): seq<Problem>
    requires i < |d.blocks|
  {
    var b := d.blocks[i];
    If(c.traceRequired, AtComponent(i), RawScanViolation)
    + If(!(1 <= b.span <= d.columns), AtSpan(i), GridViolation)
    + UnknownInputs(b, i, c, |b.bind|)
    + MissingInputs(b, i, c, |c.inputs|)
  }

  function BlockPass(d: Definition, reg: Registry, n: nat): Pass
    requires n <= |d.blocks|
  {
    if n == 0 then Pass([], map[])
    else
      var prev, b := BlockPass(d, reg, n - 1), d.blocks[n - 1];
      if b.component !in reg then Pass(prev.problems + [Problem(AtComponent(n - 1), UnknownComponent)], prev.selections)
      else
        var c := reg[b.component];
        var s := SelectionPass(b, n - 1, c, prev.selections, |c.inputs|);
        Pass(prev.problems + BlockProblems(d, n - 1, c) + s.problems, s.selections)
  }

  /** Null provides nothing, and is not checked. */
  function BindingProblem(bound: Binding, c: Component, filters: seq<FilterDef>, selections: map<string, Type>): Option<Code> {
    match FindInput(c.inputs, bound.name)
    case None => None
    case Some(inp) =>
      if inp.accepts.SelectionSource? || bound.value.JNull? then None
      else
        match BindingType(bound.value, filters, selections)
        case Failure(code) => Some(code)
        case Success(typing) => if CheckInput(inp, typing) then None else Some(TypeMismatch)
  }

  function TypeProblems(b: Block, i: nat, c: Component, filters: seq<FilterDef>, selections: map<string,
      Type>, n: nat): seq<Problem>
    requires n <= |b.bind|
  {
    if n == 0 then []
    else
      TypeProblems(b, i, c, filters, selections, n - 1) +
      match BindingProblem(b.bind[n - 1], c, filters, selections)
      case None => []
      case Some(code) => [Problem(AtInput(i, b.bind[n - 1].name), code)]
  }

  function TypePass(d: Definition, reg: Registry, selections: map<string, Type>, n: nat): seq<Problem>
    requires n <= |d.blocks|
  {
    if n == 0 then []
    else
      var b := d.blocks[n - 1];
      TypePass(d, reg, selections, n - 1)
      + if b.component in reg then TypeProblems(b, n - 1, reg[b.component], d.filters, selections, |b.bind|) else []
  }

  /** The selections the blocks publish, as the validator collects them. */
  function Selections(d: Definition, reg: Registry): map<string, Type> { BlockPass(d, reg, |d.blocks|).selections }

  function Problems(d: Definition, reg: Registry): seq<Problem> {
    HeaderProblems(d) + FilterProblems(d.filters, |d.filters|)
    + BlockPass(d, reg, |d.blocks|).problems
    + TypePass(d, reg, Selections(d, reg), |d.blocks|)
  }

  // ---- The validator -----------------------------------------------------------------------------

  /** The version, the grid and the pinned registry. */
  method ValidateHeader(d: Definition) returns (problems: seq<Problem>)
    ensures problems == HeaderProblems(d)
  {
    problems := [];
    if d.version != 3 {
      problems := problems + [Problem(AtVersion, UnsupportedVersion)];
    }
    if d.gridType != "grid" {
      problems := problems + [Problem(AtLayoutType, GridViolation)];
    }
    if d.columns != 12 {
      problems := problems + [Problem(AtColumns, GridViolation)];
    }
    if d.registryVersion.Some? && d.registryVersion.value != 1 {
      problems := problems + [Problem(AtRegistry, RegistryMismatch)];
    }
  }

  method ValidateFilters(filters: seq<FilterDef>) returns (problems: seq<Problem>)
    ensures problems == FilterProblems(filters, |filters|)
  {
    problems := [];
    var ids: set<string> := {};
    for i := 0 to |filters|
      invariant problems == FilterProblems(filters, i)
      invariant forall id :: id in ids <==> IdTaken(filters, i, id)
    {
      var f := filters[i];
      hide FilterType;
      if f.id in ids {
        problems := problems + [Problem(AtFilterId(i), DuplicateFilterId)];
        continue;
      }
      if FilterType(f.kind).None? {
        problems := problems + [Problem(AtFilterType(i), UnknownFilterType)];
      }
      ids := ids + {f.id};
    }
  }

  method ValidateInputs(d: Definition, i: nat, c: Component) returns (problems: seq<Problem>)
    requires i < |d.blocks|
    ensures problems == BlockProblems(d, i, c)
  {
    hide BoundTo, FindInput;
    var b := d.blocks[i];
    problems := [];
    if c.traceRequired {
      problems := [Problem(AtComponent(i), RawScanViolation)];
    }
    if !(1 <= b.span <= d.columns) {
      problems := problems + [Problem(AtSpan(i), GridViolation)];
    }
    ghost var before := problems;
    for k := 0 to |b.bind|
      invariant problems == before + UnknownInputs(b, i, c, k)
    {
      if FindInput(c.inputs, b.bind[k].name).None? {
        problems := problems + [Problem(AtInput(i, b.bind[k].name), UnknownInput)];
      }
    }
    before := problems;
    for k := 0 to |c.inputs|
      invariant problems == before + MissingInputs(b, i, c, k)
    {
      if c.inputs[k].required && forall j | 0 <= j < |b.bind| :: b.bind[j].name != c.inputs[k].name {
        problems := problems + [Problem(AtBind(i), MissingRequiredInput)];
      }
    }
  }

  method PublishSelections(b: Block, i: nat, c: Component, selections: map<string, Type>)
    returns (problems: seq<Problem>, published: map<string, Type>)
    ensures Pass(problems, published) == SelectionPass(b, i, c, selections, |c.inputs|)
  {
    problems, published := [], selections;
    for k := 0 to |c.inputs|
      invariant Pass(problems, published) == SelectionPass(b, i, c, selections, k)
    {
      var inp := c.inputs[k];
      if !inp.accepts.SelectionSource? {
        continue;
      }
      var raw := BoundTo(b.bind, inp.name);
      if raw.None? || !raw.value.JStr? || raw.value.s == "" || raw.value.s[0] == '$' {
        problems := problems + [Problem(AtInput(i, inp.name), TypeMismatch)];
        continue;
      }
      var t := match c.selectionType case Some(given) => given case None => AnyType;
      if raw.value.s in published && published[raw.value.s] != t {
        problems := problems + [Problem(AtInput(i, inp.name), ConflictingSelection)];
      }
      published := published[raw.value.s := t];
    }
  }

  method TypeCheckBlock(b: Block, i: nat, c: Component, filters: seq<FilterDef>, selections: map<string, Type>)
    returns (problems: seq<Problem>)
    ensures problems == TypeProblems(b, i, c, filters, selections, |b.bind|)
  {
    problems := [];
    for k := 0 to |b.bind|
      invariant problems == TypeProblems(b, i, c, filters, selections, k)
    {
      hide BindingType, CheckInput;
      var inp, value := FindInput(c.inputs, b.bind[k].name), b.bind[k].value;
      if inp.None? || inp.value.accepts.SelectionSource? || value.JNull? {
        continue;
      }
      var typing := BindingType(value, filters, selections);
      if typing.Failure? {
        problems := problems + [Problem(AtInput(i, b.bind[k].name), typing.error)];
        continue;
      }
      if !CheckInput(inp.value, typing.value) {
        problems := problems + [Problem(AtInput(i, b.bind[k].name), TypeMismatch)];
      }
    }
  }

  /** Reports every problem of the definition; it is valid when there is none. */
  method ValidateDefinition(d: Definition, reg: Registry) returns (problems: seq<Problem>)
    ensures problems == Problems(d, reg)
  {
    hide SelectionPass, BlockProblems, TypeProblems, FilterProblems, HeaderProblems;
    problems := ValidateHeader(d);
    var more := ValidateFilters(d.filters);
    problems := problems + more;
    ghost var before := problems;
    var selections: map<string, Type> := map[];
    for i := 0 to |d.blocks|
      invariant selections == BlockPass(d, reg, i).selections
      invariant problems == before + BlockPass(d, reg, i).problems
    {
      if d.blocks[i].component !in reg {
        problems := problems + [Problem(AtComponent(i), UnknownComponent)];
        continue;
      }
      var c := reg[d.blocks[i].component];
      more := ValidateInputs(d, i, c);
      problems := problems + more;
      more, selections := PublishSelections(d.blocks[i], i, c, selections);
      problems := problems + more;
      AppendTwo(before, BlockPass(d, reg, i).problems, BlockProblems(d, i, c), more);
    }
    before := problems;
    for i := 0 to |d.blocks|
      invariant problems == before + TypePass(d, reg, selections, i)
    {
      if d.blocks[i].component !in reg {
        continue;
      }
      more := TypeCheckBlock(d.blocks[i], i, reg[d.blocks[i].component], d.filters, selections);
      problems := problems + more;
    }
  }

  lemma AppendTwo(a: seq<Problem>, b: seq<Problem>, c: seq<Problem>, e: seq<Problem>)
    ensures a + b + c + e == a + (b + c + e)
  {
  }

  // ---- Resolution --------------------------------------------------------------------------------

  datatype ResolvedBlock = ResolvedBlock(component: string, span: int, at: Layout.Position, bind: seq<Binding>)

  datatype Outcome = Rejected(problems: seq<Problem>) | Broken(error: ResolutionError) | Resolved(blocks: seq<ResolvedBlock>)

  function ResolveBind(bind: seq<Binding>, env: Env, n: nat): Result<seq<Binding>, ResolutionError>
    requires n <= |bind|
  {
    if n == 0 then Success([])
    else
      match ResolveBind(bind, env, n - 1)
      case Failure(e) => Failure(e)
      case Success(front) =>
        match ResolveValue(bind[n - 1].value, env)
        case Failure(e) => Failure(e)
        case Success(v) => Success(front + [Binding(bind[n - 1].name, v)])
  }

  function ResolveBlock(b: Block, at: Layout.Position, reg: Registry, env: Env): Result<ResolvedBlock, ResolutionError> {
    match ResolveBind(b.bind, env, |b.bind|)
    case Failure(e) => Failure(e)
    case Success(bind) =>
      if b.component in reg then Success(ResolvedBlock(b.component, b.span, at, bind)) else Failure(NoSuchComponent)
  }

  function Spans(blocks: seq<Block>): seq<int> { seq(|blocks|, i requires 0 <= i < |blocks| => blocks[i].span) }

  function ResolveBlocks(d: Definition, reg: Registry, env: Env, at: seq<Layout.Position>,
      n: nat): Result<seq<ResolvedBlock>, ResolutionError>
    requires n <= |d.blocks| && n <= |at|
  {
    if n == 0 then Success([])
    else
      match ResolveBlocks(d, reg, env, at, n - 1)
      case Failure(e) => Failure(e)
      case Success(front) =>
        match ResolveBlock(d.blocks[n - 1], at[n - 1], reg, env)
        case Failure(e) => Failure(e)
        case Success(b) => Success(front + [b])
  }

  lemma {:induction false} FlowLength(spans: seq<int>, columns: int, row: nat, col: int)
    ensures |Layout.Flow(spans, columns, row, col)| == |spans|
  {
    if spans != [] {
      var p := if col + spans[0] > columns then Layout.Position(row + 1, 0) else Layout.Position(row, col);
      FlowLength(spans[1..], columns, p.row, p.col + spans[0]);
    }
  }

  function Places(d: Definition): (at: seq<Layout.Position>)
    ensures |at| == |d.blocks|
  {
    FlowLength(Spans(d.blocks), d.columns, 0, 0);
    Layout.Flow(Spans(d.blocks), d.columns, 0, 0)
  }

  /** An error in block n is an error of the whole. */
  lemma {:induction false} BlocksBreak(d: Definition, reg: Registry, env: Env, at: seq<Layout.Position>, n: nat, m: nat)
    requires n <= m <= |d.blocks| && m <= |at| && ResolveBlocks(d, reg, env, at, n).Failure?
    ensures ResolveBlocks(d, reg, env, at, m) == ResolveBlocks(d, reg, env, at, n)
  {
    if n < m {
      hide ResolveBlock;
      BlocksBreak(d, reg, env, at, n, m - 1);
    }
  }

  lemma {:induction false} BindBreaks(bind: seq<Binding>, env: Env, n: nat, m: nat)
    requires n <= m <= |bind| && ResolveBind(bind, env, n).Failure?
    ensures ResolveBind(bind, env, m) == ResolveBind(bind, env, n)
  {
    if n < m {
      hide ResolveValue;
      BindBreaks(bind, env, n, m - 1);
    }
  }

  /** The resolved block: the same component, span and names in its place, and under each name what was written stands for. */
  ghost predicate Carries(b: Block, at: Layout.Position, env: Env, r: ResolvedBlock) {
    && r.component == b.component && r.span == b.span && r.at == at && |r.bind| == |b.bind|
    && forall k | 0 <= k < |b.bind| ::
         r.bind[k].name == b.bind[k].name && StandsFor(b.bind[k].value, env, Success(r.bind[k].value))
  }

  /** The error is that of one of the written values, or of a component that is not registered. */
  ghost predicate BreaksWith(b: Block, reg: Registry, env: Env, e: ResolutionError) {
    || (e == NoSuchComponent && b.component !in reg)
    || exists k | 0 <= k < |b.bind| :: StandsFor(b.bind[k].value, env, Failure(e))
  }

  lemma {:induction false} BindCarries(bind: seq<Binding>, env: Env, n: nat)
    requires n <= |bind|
    ensures match ResolveBind(bind, env, n) {
      case Success(r) =>
        |r| == n && forall k | 0 <= k < n :: r[k].name == bind[k].name && StandsFor(bind[k].value, env, Success(r[k].value))
      case Failure(e) => exists k | 0 <= k < n :: StandsFor(bind[k].value, env, Failure(e))
    }
  {
    if n > 0 {
      BindCarries(bind, env, n - 1);
      ValuesResolve(bind[n - 1].value, env);
      hide ResolveValue, StandsFor;
    }
  }

  lemma BlockCarries(b: Block, at: Layout.Position, reg: Registry, env: Env)
    ensures match ResolveBlock(b, at, reg, env) {
      case Success(r) => b.component in reg && Carries(b, at, env, r)
      case Failure(e) => BreaksWith(b, reg, env, e)
    }
  {
    hide StandsFor, ResolveBind;
    BindCarries(b.bind, env, |b.bind|);
  }

  lemma {:induction false} BlocksCarry(d: Definition, reg: Registry, env: Env, at: seq<Layout.Position>, n: nat)
    requires n <= |d.blocks| && n <= |at|
    ensures match ResolveBlocks(d, reg, env, at, n) {
      case Success(r) => |r| == n && forall i | 0 <= i < n :: d.blocks[i].component in reg && Carries(d.blocks[i], at[i], env, r[i])
      case Failure(e) => exists i | 0 <= i < n :: BreaksWith(d.blocks[i], reg, env, e)
    }
  {
    if n > 0 {
      BlocksCarry(d, reg, env, at, n - 1);
      BlockCarries(d.blocks[n - 1], at[n - 1], reg, env);
      hide ResolveBlock, Carries, BreaksWith;
    }
  }

  method ResolveOne(b: Block, at: Layout.Position, reg: Registry, env: Env) returns (r: Result<ResolvedBlock, ResolutionError>)
    ensures r == ResolveBlock(b, at, reg, env)
  {
    hide ResolveValue;
    var bind: seq<Binding> := [];
    for k := 0 to |b.bind|
      invariant ResolveBind(b.bind, env, k) == Success(bind)
    {
      var v := ResolveValue(b.bind[k].value, env);
      if v.Failure? {
        BindBreaks(b.bind, env, k + 1, |b.bind|);
        return Failure(v.error);
      }
      bind := bind + [Binding(b.bind[k].name, v.value)];
    }
    if b.component !in reg {
      return Failure(NoSuchComponent);
    }
    r := Success(ResolvedBlock(b.component, b.span, at, bind));
  }

  /** A definition with problems is never resolved. */
  method ResolveDefinition(d: Definition, reg: Registry, env: Env) returns (r: Outcome)
    ensures Problems(d, reg) != [] ==> r == Rejected(Problems(d, reg))
    ensures Problems(d, reg) == [] ==>
              match ResolveBlocks(d, reg, env, Places(d), |d.blocks|) {
                case Failure(e) => r == Broken(e)
                case Success(blocks) => r == Resolved(blocks)
              }
    ensures r.Resolved? ==>
              |r.blocks| == |d.blocks| && forall i | 0 <= i < |d.blocks| :: Carries(d.blocks[i], Places(d)[i], env, r.blocks[i])
    ensures r.Broken? ==> exists i | 0 <= i < |d.blocks| :: BreaksWith(d.blocks[i], reg, env, r.error)
  {
    hide Problems, ResolveBlock, Carries, BreaksWith;
    BlocksCarry(d, reg, env, Places(d), |d.blocks|);
    var problems := ValidateDefinition(d, reg);
    if problems != [] {
      return Rejected(problems);
    }
    var at := Layout.LayoutBlocks(Spans(d.blocks), d.columns);
    assert at == Places(d);
    var blocks: seq<ResolvedBlock> := [];
    for i := 0 to |d.blocks|
      invariant ResolveBlocks(d, reg, env, at, i) == Success(blocks)
    {
      var b := ResolveOne(d.blocks[i], at[i], reg, env);
      if b.Failure? {
        BlocksBreak(d, reg, env, at, i + 1, |d.blocks|);
        return Broken(b.error);
      }
      blocks := blocks + [b.value];
    }
    r := Resolved(blocks);
  }

  // ---- What acceptance means ---------------------------------------------------------------------

  ghost predicate FiltersOk(filters: seq<FilterDef>) {
    && (forall i, j | 0 <= i < j < |filters| :: filters[i].id != filters[j].id)
    && FilterTypesKnown(filters)
  }

  /** A block uses a known component, fits the grid, and binds declared inputs only and all required ones. */
  ghost predicate BlockOk(d: Definition, b: Block, c: Component) {
    && !c.traceRequired && 1 <= b.span <= d.columns
    && (forall bound | bound in b.bind :: FindInput(c.inputs, bound.name).Some?)
    && (forall inp | inp in c.inputs :: !Missing(b, inp))
  }

  /** The block publishes each of its selections under the type that selections gives it. */
  ghost predicate PublishesAs(b: Block, c: Component, selections: map<string, Type>) {
    forall inp | inp in c.inputs && inp.accepts.SelectionSource? ::
      SelectionName(b, inp).Some? && SelectionName(b, inp).value in selections
      && selections[SelectionName(b, inp).value] == PublishedType(c)
  }

  /** Each binding is null, published elsewhere, or of the type its input asks for. */
  ghost predicate BindingsOk(b: Block, c: Component, filters: seq<FilterDef>, selections: map<string, Type>) {
    forall bound | bound in b.bind :: BindingProblem(bound, c, filters, selections).None?
  }

  ghost predicate Publishes(b: Block, c: Component, name: string) {
    exists inp | inp in c.inputs && inp.accepts.SelectionSource? :: SelectionName(b, inp) == Some(name)
  }

  ghost predicate BlockPasses(d: Definition, b: Block, reg: Registry, selections: map<string, Type>) {
    && b.component in reg && BlockOk(d, b, reg[b.component])
    && PublishesAs(b, reg[b.component], selections) && BindingsOk(b, reg[b.component], d.filters, selections)
  }

  ghost predicate BlockPublishes(b: Block, reg: Registry, name: string) {
    b.component in reg && Publishes(b, reg[b.component], name)
  }

  ghost predicate PassesChecks(d: Definition, reg: Registry, selections: map<string, Type>) {
    HeaderProblems(d) == [] && FiltersOk(d.filters) && BlocksPass(d, reg, selections) && SelectionsPublished(d, reg, selections)
  }

  ghost predicate BlocksPass(d: Definition, reg: Registry, selections: map<string, Type>) {
    forall i | 0 <= i < |d.blocks| :: BlockPasses(d, d.blocks[i], reg, selections)
  }

  ghost predicate SelectionsPublished(d: Definition, reg: Registry, selections: map<string, Type>) {
    forall name | name in selections :: exists i | 0 <= i < |d.blocks| :: BlockPublishes(d.blocks[i], reg, name)
  }
}
