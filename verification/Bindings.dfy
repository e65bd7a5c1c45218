/** The closed binding language of dashboards: the grammar of references and the type of a bound value. */
module Bindings {
  import opened Wrappers

  /** A bound value as JSON; lists and objects are no binding values. */
  datatype Json = JNull | JBool(b: bool) | JNum(n: real) | JStr(s: string) | JCompound

  /** Input types and the types bindings resolve to. */
  datatype Type = RunId | CaseId | MetricId | Text | Boolean | Number | Enum | SelectionSource | AnyType | NullType

  datatype RefKind = Filters | Selection | RunField

  datatype Ref = Ref(kind: RefKind, name: string)

  datatype Code =
    | UnsupportedVersion | GridViolation | RegistryMismatch | DuplicateFilterId | UnknownFilterType
    | UnknownComponent | RawScanViolation | UnknownInput | MissingRequiredInput | ConflictingSelection
    | InvalidBinding | UnknownFilterRef | UnknownSelectionRef | UnknownRunField | TypeMismatch

  predicate IsLetter(c: char) { 'a' <= c <= 'z' || 'A' <= c <= 'Z' || c == '_' }

  predicate IsIdent(s: string) {
    s != "" && IsLetter(s[0]) && forall c | c in s :: IsLetter(c) || '0' <= c <= '9'
  }

  /** By ASCII code: a letter or an underscore, and behind the first character also a digit. */
  predicate IdentCode(n: int, first: bool) { 65 <= n <= 90 || n == 95 || 97 <= n <= 122 || (!first && 48 <= n <= 57) }

  lemma IdentsAre(s: string)
    ensures IsIdent(s) <==> s != "" && forall i | 0 <= i < |s| :: IdentCode(s[i] as int, i == 0)
  {
    assert forall i | 0 <= i < |s| :: s[i] in s;
    if s != "" && forall i | 0 <= i < |s| :: IdentCode(s[i] as int, i == 0) {
      forall c | c in s ensures IsLetter(c) || '0' <= c <= '9' {
        var i :| 0 <= i < |s| && s[i] == c;
        assert IdentCode(s[i] as int, i == 0);
      }
    }
  }

  function Prefix(kind: RefKind): string {
    match kind
    case Filters => "$filters."
    case Selection => "$selection."
    case RunField => "$run."
  }

  predicate StartsWith(s: string, prefix: string) { |prefix| <= |s| && s[..|prefix|] == prefix }

  /** The pattern's end anchor also matches before a newline that ends the text. */
  function BeforeNewline(s: string): string {
    if s != "" && s[|s| - 1] == '\n' then s[..|s| - 1] else s
  }

  function ParseKind(body: string, kind: RefKind): Option<Ref> {
    if StartsWith(body, Prefix(kind)) && IsIdent(body[|Prefix(kind)|..]) then Some(Ref(kind, body[|Prefix(kind)|..])) else None
  }

  function ParseRef(s: string): Option<Ref> {
    var body := BeforeNewline(s);
    if ParseKind(body, Filters).Some? then ParseKind(body, Filters)
    else if ParseKind(body, Selection).Some? then ParseKind(body, Selection)
    else ParseKind(body, RunField)
  }

  function RefText(r: Ref): string { Prefix(r.kind) + r.name }

  lemma ParseKindExactly(body: string, kind: RefKind, r: Ref)
    ensures ParseKind(body, kind) == Some(r) <==> r.kind == kind && IsIdent(r.name) && body == RefText(r)
  {
    if StartsWith(body, Prefix(kind)) {
      assert body == Prefix(kind) + body[|Prefix(kind)|..];
    }
    if r.kind == kind && body == RefText(r) {
      assert body[|Prefix(kind)|..] == r.name;
    }
  }

  lemma KindsDiffer(body: string, k: RefKind, l: RefKind)
    requires StartsWith(body, Prefix(k)) && StartsWith(body, Prefix(l))
    ensures k == l
  {
    assert body[1] == Prefix(k)[1] == Prefix(l)[1];
  }

  lemma IdentEnds(r: Ref)
    requires IsIdent(r.name)
    ensures BeforeNewline(RefText(r)) == RefText(r) && BeforeNewline(RefText(r) + "\n") == RefText(r)
  {
    var t := RefText(r);
    assert t[|t| - 1] == r.name[|r.name| - 1];
    assert r.name[|r.name| - 1] in r.name;
  }

  /** The text denotes the reference, in its printed form or with a newline at the end. */
  ghost predicate Denotes(s: string, r: Ref) { IsIdent(r.name) && (s == RefText(r) || s == RefText(r) + "\n") }

  /** The texts that denote a reference are its printed form, and that form with a newline at the end. */
  lemma ReferenceGrammarExactly(s: string, r: Ref)
    ensures ParseRef(s) == Some(r) <==> Denotes(s, r)
  {
    var body := BeforeNewline(s);
    ParseKindExactly(body, Filters, r);
    ParseKindExactly(body, Selection, r);
    ParseKindExactly(body, RunField, r);
    if IsIdent(r.name) {
      IdentEnds(r);
    }
    if body == RefText(r) {
      assert s == body || s == body + "\n";
      assert StartsWith(body, Prefix(r.kind));
      OnlyKind(body, r.kind);
    }
  }

  lemma OnlyKind(body: string, kind: RefKind)
    requires StartsWith(body, Prefix(kind))
    ensures forall k | ParseKind(body, k).Some? :: k == kind
  {
    forall k | ParseKind(body, k).Some? ensures k == kind {
      KindsDiffer(body, k, kind);
    }
  }

  // ---- Types -------------------------------------------------------------------------------------

  datatype FilterDef = FilterDef(id: string, kind: string)

  function FilterType(kind: string): Option<Type> {
    match kind
    case "run_selector" => Some(RunId)
    case "tag_filter" => Some(Text)
    case "metric_filter" => Some(MetricId)
    case "case_filter" => Some(CaseId)
    case "string" => Some(Text)
    case "boolean" => Some(Boolean)
    case _ => None
  }

  function RunFieldType(name: string): Option<Type> {
    match name
    case "id" => Some(RunId)
    case "case_count" => Some(Number)
    case "status" => Some(Text)
    case "tier" => Some(Text)
    case "name" => Some(Text)
    case "spec_version" => Some(Text)
    case "dataset_version" => Some(Text)
    case "created_at" => Some(Text)
    case "run_started_at" => Some(Text)
    case "run_completed_at" => Some(Text)
    case _ => None
  }

  /** The declared types of filters and run fields. */
  lemma DeclaredTypesAre(kind: string, name: string)
    ensures FilterType(kind) == Some(RunId) <==> kind == "run_selector"
    ensures FilterType(kind) == Some(MetricId) <==> kind == "metric_filter"
    ensures FilterType(kind) == Some(CaseId) <==> kind == "case_filter"
    ensures FilterType(kind) == Some(Boolean) <==> kind == "boolean"
    ensures FilterType(kind) == Some(Text) <==> kind == "tag_filter" || kind == "string"
    ensures FilterType(kind).Some? ==> FilterType(kind).value in {RunId, MetricId, CaseId, Boolean, Text}
    ensures RunFieldType(name) == Some(RunId) <==> name == "id"
    ensures RunFieldType(name) == Some(Number) <==> name == "case_count"
    ensures RunFieldType(name) == Some(Text) <==>
              name in ["status", "tier", "name", "spec_version", "dataset_version", "created_at", "run_started_at", "run_completed_at"]
    ensures RunFieldType(name).Some? ==> RunFieldType(name).value in {RunId, Number, Text}
  {
  }

  /** The first filter with the id. */
  function FindFilter(filters: seq<FilterDef>, id: string): (f: Option<FilterDef>)
    ensures f.Some? ==> f.value in filters && f.value.id == id
    ensures f.None? ==> forall g | g in filters :: g.id != id
  {
    if filters == [] then None
    else if filters[0].id == id then Some(filters[0])
    else FindFilter(filters[1..], id)
  }

  datatype Typing = Typing(resolvesTo: Type, literal: Option<Json>)

  /** The type of a bound value: that of a literal, or what a reference resolves to; null is typed elsewhere. */
  function BindingType(v: Json, filters: seq<FilterDef>, selections: map<string, Type>): Result<Typing, Code> {
    match v
    case JStr(s) =>
      (match ParseRef(s)
       case None => if StartsWith(s, "$") then Failure(InvalidBinding) else Success(Typing(Text, Some(v)))
       case Some(Ref(Filters, name)) =>
         (match FindFilter(filters, name)
          case None => Failure(UnknownFilterRef)
          case Some(f) => Success(Typing(if FilterType(f.kind).Some? then FilterType(f.kind).value else Text, None)))
       case Some(Ref(Selection, name)) =>
         if name in selections then Success(Typing(selections[name], None)) else Failure(UnknownSelectionRef)
       case Some(Ref(RunField, name)) =>
         if RunFieldType(name).Some? then Success(Typing(RunFieldType(name).value, None)) else Failure(UnknownRunField))
    case JBool(_) => Success(Typing(Boolean, Some(v)))
    case JNum(_) => Success(Typing(Number, Some(v)))
    case JNull => Success(Typing(NullType, None))
    case JCompound => Failure(InvalidBinding)
  }

  datatype InputSpec = InputSpec(name: string, accepts: Type, required: bool, values: seq<string>)

  predicate StringLike(t: Type) { t.Text? || t.RunId? || t.CaseId? || t.MetricId? }

  /** Whether a typed binding satisfies an input; a literal string satisfies any string-like input. */
  predicate CheckInput(inp: InputSpec, b: Typing) {
    match inp.accepts
    case Enum => b.resolvesTo.Text? && b.literal.Some? && b.literal.value.JStr? && b.literal.value.s in inp.values
    case SelectionSource => false
    case Boolean => b.resolvesTo.Boolean?
    case Number => b.resolvesTo.Number?
    case RunId => b.resolvesTo.RunId? || (b.resolvesTo.Text? && b.literal.Some?)
    case CaseId => b.resolvesTo.CaseId? || (b.resolvesTo.Text? && b.literal.Some?)
    case MetricId => b.resolvesTo.MetricId? || (b.resolvesTo.Text? && b.literal.Some?)
    case Text => StringLike(b.resolvesTo)
    case AnyType => b.resolvesTo.AnyType?
    case NullType => b.resolvesTo.NullType?
  }

  /** What a literal's type is, and which literals there are. */
  lemma LiteralsAreTyped(v: Json, filters: seq<FilterDef>, selections: map<string, Type>)
    requires v.JStr? ==> v.s == "" || v.s[0] != '$'
    ensures v.JStr? ==> BindingType(v, filters, selections) == Success(Typing(Text, Some(v)))
    ensures v.JBool? ==> BindingType(v, filters, selections) == Success(Typing(Boolean, Some(v)))
    ensures v.JNum? ==> BindingType(v, filters, selections) == Success(Typing(Number, Some(v)))
    ensures v.JNull? ==> BindingType(v, filters, selections) == Success(Typing(NullType, None))
    ensures v.JCompound? ==> BindingType(v, filters, selections) == Failure(InvalidBinding)
  {
    if v.JStr? {
      RefStartsWithDollar(v.s);
    }
  }

  /** The type of a reference to a selection or a run field, by any text that denotes it. */
  lemma ReferencesAreTyped(s: string, name: string, filters: seq<FilterDef>, selections: map<string, Type>)
    ensures Denotes(s, Ref(Selection, name)) ==>
              BindingType(JStr(s), filters, selections) ==
              (if name in selections then Success(Typing(selections[name], None)) else Failure(UnknownSelectionRef))
    ensures Denotes(s, Ref(RunField, name)) ==>
              BindingType(JStr(s), filters, selections) ==
              (if RunFieldType(name).Some? then Success(Typing(RunFieldType(name).value, None)) else Failure(UnknownRunField))
  {
    ReferenceGrammarExactly(s, Ref(Selection, name));
    ReferenceGrammarExactly(s, Ref(RunField, name));
    hide ParseRef;
  }

  /** A reference to a filter has the type of the first filter with the id. */
  lemma FilterReferencesAreTyped(s: string, name: string, filters: seq<FilterDef>, selections: map<string, Type>)
    requires Denotes(s, Ref(Filters, name))
    ensures (forall f | f in filters :: f.id != name) ==> BindingType(JStr(s), filters, selections) == Failure(UnknownFilterRef)
    ensures forall i | IsFirst(filters, name, i) ::
              var t := FilterType(filters[i].kind);
              BindingType(JStr(s), filters, selections) == Success(Typing(if t.Some? then t.value else Text, None))
  {
    ReferenceGrammarExactly(s, Ref(Filters, name));
    hide ParseRef;
    FindFilterIsFirst(filters, name);
  }

  /** The i-th filter has the id, and none before it has. */
  ghost predicate IsFirst(filters: seq<FilterDef>, id: string, i: int) {
    0 <= i < |filters| && filters[i].id == id && forall j | 0 <= j < i :: filters[j].id != id
  }

  lemma {:induction false} FindFilterIsFirst(filters: seq<FilterDef>, id: string)
    ensures forall i | IsFirst(filters, id, i) :: FindFilter(filters, id) == Some(filters[i])
    ensures FindFilter(filters, id).Some? ==> exists i :: IsFirst(filters, id, i)
  {
    if filters != [] {
      var rest := filters[1..];
      FindFilterIsFirst(rest, id);
      forall i | IsFirst(filters, id, i) && i > 0 ensures FindFilter(filters, id) == Some(filters[i]) {
        assert IsFirst(rest, id, i - 1);
      }
      if filters[0].id == id {
        assert IsFirst(filters, id, 0);
      } else if i :| IsFirst(rest, id, i) {
        assert IsFirst(filters, id, i + 1);
      }
    }
  }

  /** Any other text that begins with "$" is no binding. */
  lemma OtherDollarsAreInvalid(s: string, filters: seq<FilterDef>, selections: map<string, Type>)
    requires s != "" && s[0] == '$' && forall r :: !Denotes(s, r)
    ensures BindingType(JStr(s), filters, selections) == Failure(InvalidBinding)
  {
    if ParseRef(s).Some? {
      ReferenceGrammarExactly(s, ParseRef(s).value);
    }
  }

  /** Which typed bindings an input takes: by its type, with a literal string for any kind of identifier. */
  lemma InputsAccept(inp: InputSpec, t: Type, literal: Option<Json>)
    ensures inp.accepts.Boolean? || inp.accepts.Number? || inp.accepts.AnyType? || inp.accepts.NullType? ==>
              (CheckInput(inp, Typing(t, literal)) <==> t == inp.accepts)
    ensures inp.accepts in {RunId, CaseId, MetricId} ==>
              (CheckInput(inp, Typing(t, literal)) <==> t == inp.accepts || (t == Text && literal.Some?))
    ensures inp.accepts.Text? ==> (CheckInput(inp, Typing(t, literal)) <==> t in {Text, RunId, CaseId, MetricId})
    ensures inp.accepts.Enum? ==>
              (CheckInput(inp, Typing(t, literal)) <==> t == Text && exists s :: literal == Some(JStr(s)) && s in inp.values)
    ensures inp.accepts.SelectionSource? ==> !CheckInput(inp, Typing(t, literal))
  {
    if literal.Some? && literal.value.JStr? {
      assert literal == Some(JStr(literal.value.s));
    }
  }

  // ---- Resolution --------------------------------------------------------------------------------

  /** The values references draw on; run gives the fields of the bound run, if one is bound. */
  datatype Env = Env(filters: map<string, Json>, selection: map<string, Json>, run: Option<string -> Json>)

  datatype ResolutionError = BadReference | NoSuchRunField | NoSuchComponent

  function RunFieldOf(run: string -> Json, name: string): Result<Json, ResolutionError> {
    if RunFieldType(name).Some? then Success(run(name)) else Failure(NoSuchRunField)
  }

  function Lookup(m: map<string, Json>, name: string): Json { if name in m then m[name] else JNull }

  function ResolveRef(s: string, env: Env): Result<Json, ResolutionError> {
    match ParseRef(s)
    case None => Failure(BadReference)
    case Some(Ref(Filters, name)) => Success(Lookup(env.filters, name))
    case Some(Ref(Selection, name)) => Success(Lookup(env.selection, name))
    case Some(Ref(RunField, name)) => if env.run.None? then Success(JNull) else RunFieldOf(env.run.value, name)
  }

  predicate Dollar(v: Json) { v.JStr? && StartsWith(v.s, "$") }

  function ResolveValue(v: Json, env: Env): Result<Json, ResolutionError> {
    if Dollar(v) then ResolveRef(v.s, env) else Success(v)
  }

  /** What a reference stands for: what is stored under its name, null where nothing is, and null without a run. */
  ghost function ValueOf(r: Ref, env: Env): Result<Json, ResolutionError> {
    var stored := if r.kind.Filters? then env.filters else env.selection;
    if !r.kind.RunField? then Success(if r.name in stored then stored[r.name] else JNull)
    else if env.run.None? then Success(JNull)
    else if RunFieldType(r.name).None? then Failure(NoSuchRunField)
    else Success(env.run.value(r.name))
  }

  /** A written value stands for itself unless it begins with "$"; then it stands for what the reference it denotes does. */
  ghost predicate StandsFor(v: Json, env: Env, r: Result<Json, ResolutionError>) {
    if !Dollar(v) then r == Success(v)
    else if exists ref :: Denotes(v.s, ref) then forall ref | Denotes(v.s, ref) :: r == ValueOf(ref, env)
    else r == Failure(BadReference)
  }

  /** Resolving a written value gives what it stands for. */
  lemma ValuesResolve(v: Json, env: Env)
    ensures StandsFor(v, env, ResolveValue(v, env))
  {
    if Dollar(v) {
      forall ref ensures Denotes(v.s, ref) <==> ParseRef(v.s) == Some(ref) {
        ReferenceGrammarExactly(v.s, ref);
      }
      if ParseRef(v.s).Some? {
        var ref := ParseRef(v.s).value;
        RefResolves(v.s, ref, env);
        assert Denotes(v.s, ref);
      }
      hide ParseRef, Denotes, ValueOf;
    }
  }

  lemma RefResolves(s: string, ref: Ref, env: Env)
    requires ParseRef(s) == Some(ref)
    ensures ResolveRef(s, env) == ValueOf(ref, env)
  {
    hide ParseRef;
  }

  /** The references as they are written. */
  lemma ReferencesResolve(name: string, env: Env)
    requires IsIdent(name)
    ensures ResolveValue(JStr("$filters." + name), env) == Success(if name in env.filters then env.filters[name] else JNull)
    ensures ResolveValue(JStr("$selection." + name), env) == Success(if name in env.selection then env.selection[name] else JNull)
    ensures env.run.None? ==> ResolveValue(JStr("$run." + name), env) == Success(JNull)
    ensures env.run.Some? ==>
              ResolveValue(JStr("$run." + name), env) ==
              (if RunFieldType(name).Some? then Success(env.run.value(name)) else Failure(NoSuchRunField))
  {
    WrittenRef("$filters.", Ref(Filters, name));
    WrittenRef("$selection.", Ref(Selection, name));
    WrittenRef("$run.", Ref(RunField, name));
    hide ParseRef, IsIdent;
  }

  lemma WrittenRef(prefix: string, r: Ref)
    requires IsIdent(r.name) && prefix == Prefix(r.kind)
    ensures ParseRef(prefix + r.name) == Some(r) && Dollar(JStr(prefix + r.name))
  {
    ReferenceGrammarExactly(prefix + r.name, r);
    assert prefix[0] == '$' && (prefix + r.name)[..1] == "$";
  }

  /** Whatever does not begin with "$" stands for itself. */
  lemma LiteralsResolve(v: Json, env: Env)
    requires v.JStr? ==> v.s == "" || v.s[0] != '$'
    ensures ResolveValue(v, env) == Success(v)
  {
  }

  /** A value written down that has the shape an input asks for. */
  ghost predicate LiteralFits(inp: InputSpec, v: Json) {
    match inp.accepts
    case Enum => v.JStr? && v.s in inp.values
    case Boolean => v.JBool?
    case Number => v.JNum?
    case SelectionSource => v.JStr? && v.s != "" && !Dollar(v)
    case AnyType => false
    case NullType => false
    case _ => v.JStr?
  }

  /** The values of the environment have their declared types, under any reading of the types, or are null. */
  ghost predicate TypedEnv(isA: (Json, Type) -> bool, filters: seq<FilterDef>, selections: map<string, Type>, env: Env) {
    && (forall v, t | StringLike(t) && isA(v, t) :: isA(v, Text))
    && (forall f | f in filters && f.id in env.filters ::
          env.filters[f.id].JNull? || (FilterType(f.kind).Some? && isA(env.filters[f.id], FilterType(f.kind).value)))
    && (forall name | name in selections && name in env.selection ::
          env.selection[name].JNull? || isA(env.selection[name], selections[name]))
    && (env.run.Some? ==> forall name | RunFieldType(name).Some? ::
          env.run.value(name).JNull? || isA(env.run.value(name), RunFieldType(name).value))
  }

  /**
   What may reach a component: what the written value stands for, be it null, a literal of the
   input's shape, or a value of the input's type.
  */
  ghost predicate Delivers(isA: (Json, Type) -> bool, inp: InputSpec, written: Json, env: Env, v: Json) {
    && StandsFor(written, env, Success(v))
    && (v.JNull? || (v == written && LiteralFits(inp, v)) || (Dollar(written) && isA(v, inp.accepts)))
  }

  lemma RefStartsWithDollar(s: string)
    ensures ParseRef(s).Some? ==> StartsWith(s, "$")
  {
    if ParseRef(s).Some? {
      ReferenceGrammarExactly(s, ParseRef(s).value);
      var r := ParseRef(s).value;
      assert s[0] == Prefix(r.kind)[0] == '$';
    }
  }

  /** What a reference resolves to has the type the reference was given. */
  lemma ReferenceIsTyped(isA: (Json, Type) -> bool, s: string, filters: seq<FilterDef>, selections: map<string, Type>, env: Env)
    requires TypedEnv(isA, filters, selections, env) && StartsWith(s, "$") && BindingType(JStr(s), filters, selections).Success?
    ensures var typing := BindingType(JStr(s), filters, selections).value;
            && typing.literal.None?
            && ResolveRef(s, env).Success?
            && (FilterTypesKnown(filters) ==> var v := ResolveRef(s, env).value; v.JNull? || isA(v, typing.resolvesTo))
  {
    hide ParseRef, StartsWith;
    match ParseRef(s)
    case Some(Ref(Filters, name)) =>
      var f := FindFilter(filters, name).value;
      assert f in filters && f.id == name;
    case _ =>
  }

  ghost predicate FilterTypesKnown(filters: seq<FilterDef>) { forall f | f in filters :: FilterType(f.kind).Some? }

  lemma CheckedTypeFits(isA: (Json, Type) -> bool, inp: InputSpec, t: Type, v: Json)
    requires forall v, t | StringLike(t) && isA(v, t) :: isA(v, Text)
    requires CheckInput(inp, Typing(t, None)) && isA(v, t)
    ensures isA(v, inp.accepts)
  {
  }

  /** A binding that type-checks resolves without an error, to a value its input accepts. */
  lemma CheckedBindingResolves(isA: (Json, Type) -> bool, inp: InputSpec, v: Json,
      filters: seq<FilterDef>, selections: map<string, Type>, env: Env)
    requires TypedEnv(isA, filters, selections, env) && FilterTypesKnown(filters)
    requires v.JNull? || (BindingType(v, filters, selections).Success? && CheckInput(inp, BindingType(v, filters, selections).value))
    ensures ResolveValue(v, env).Success? && Delivers(isA, inp, v, env, ResolveValue(v, env).value)
  {
    ValuesResolve(v, env);
    hide StandsFor;
    if Dollar(v) {
      ReferenceIsTyped(isA, v.s, filters, selections, env);
      var r := ResolveRef(v.s, env).value;
      hide BindingType, ResolveRef;
      if !r.JNull? {
        CheckedTypeFits(isA, inp, BindingType(v, filters, selections).value.resolvesTo, r);
      }
    } else if v.JStr? {
      RefStartsWithDollar(v.s);
      hide ParseRef, StartsWith;
    }
  }

  /** Following a reference fails exactly on what the validator calls an invalid binding or an unknown run field. */
  lemma ReferenceErrorsExactly(s: string, filters: seq<FilterDef>, selections: map<string, Type>, env: Env)
    requires StartsWith(s, "$") && env.run.Some?
    ensures ResolveRef(s, env) == Failure(BadReference) <==> BindingType(JStr(s), filters, selections) == Failure(InvalidBinding)
    ensures ResolveRef(s, env) == Failure(NoSuchRunField) <==> BindingType(JStr(s), filters, selections) == Failure(UnknownRunField)
    ensures ResolveRef(s, env) != Failure(NoSuchComponent)
  {
    hide ParseRef;
  }
}
