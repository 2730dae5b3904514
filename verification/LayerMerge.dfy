/** The layer merge (crates/bitty-config/src/merge.rs) over the font, window,
    theme and schema-version fields: per field the highest-precedence layer
    wins, stably, and every value answers which layer it came from. */
module LayerMerge {
  import opened Wrappers
  import opened Ordering

  // ---------------------------------------------------------------- layers

  datatype LayerKind =
    CoreDefaults | SystemDefaults | SystemPolicy | Distribution | Profile | User | TrustedLocal | Cli

  function Precedence(kind: LayerKind): nat {
    match kind
    case CoreDefaults => 0
    case SystemDefaults => 10
    case SystemPolicy => 20
    case Distribution => 30
    case Profile => 40
    case User => 50
    case TrustedLocal => 60
    case Cli => 70
  }

  predicate IsPolicy(kind: LayerKind) { kind == SystemPolicy }

  datatype Source = Source(kind: LayerKind, path: Option<string>, line: Option<nat>)

  const CORE_SOURCE := Source(CoreDefaults, None, None)

  datatype FontTable = FontTable(family: string, size: real, lineHeight: real, letterSpacing: real,
                                 fallback: seq<string>, features: seq<string>, disableLigatures: string)

  datatype WindowTable = WindowTable(opacity: real, padding: nat, radiusPx: nat, blurRadius: nat,
                                     backgroundImage: Option<string>, backgroundFit: Option<string>,
                                     backgroundOpacity: Option<real>, backgroundPosition: Option<string>)

  datatype AppearanceTable = AppearanceTable(theme: Option<string>)

  /** What one layer declares; an absent table says nothing. */
  datatype Plan = Plan(font: Option<FontTable>, window: Option<WindowTable>, appearance: Option<AppearanceTable>,
                       schemaVersion: Option<nat>)

  datatype Layer = Layer(source: Source, plan: Plan)

  datatype Effective = Effective(font: FontTable, window: WindowTable, theme: Option<string>, schemaVersion: nat)

  // ---------------------------------------------------------------- fields

  datatype Field =
    | FontFamily | FontSize | FontLineHeight | FontLetterSpacing | FontFallback | FontFeatures | FontLigatures | Font
    | WindowOpacity | WindowPadding | WindowRadius | BackgroundImage | BackgroundFit | BackgroundOpacity
    | BackgroundPosition | Window | Theme | Appearance | SchemaVersion

  /** The order the merge visits the fields of one layer in. */
  const MERGE_ORDER: seq<Field> := [
    FontFamily, FontSize, FontLineHeight, FontLetterSpacing, FontFallback, FontFeatures, FontLigatures, Font,
    WindowOpacity, WindowPadding, WindowRadius, BackgroundImage, BackgroundFit, BackgroundOpacity,
    BackgroundPosition, Window, Theme, Appearance, SchemaVersion]

  /** Table names carry an attribution but no value of their own. The source
      leaves the name `appearance` alone when the theme is pinned; such a merge
      is refused as a whole. */
  predicate IsContainer(f: Field) { f.Font? || f.Window? || f.Appearance? }

  /** The fields a policy layer can pin. */
  predicate IsPinnable(f: Field) { !IsContainer(f) && !f.SchemaVersion? }

  datatype Value = NoValue | Text(text: string) | Number(number: real) | Count(count: nat) | Names(names: seq<string>)

  function TextOrNone(o: Option<string>): Value { if o.Some? then Text(o.value) else NoValue }

  function NumberOrNone(o: Option<real>): Value { if o.Some? then Number(o.value) else NoValue }

  function Get(e: Effective, f: Field): Value {
    match f
    case FontFamily => Text(e.font.family)
    case FontSize => Number(e.font.size)
    case FontLineHeight => Number(e.font.lineHeight)
    case FontLetterSpacing => Number(e.font.letterSpacing)
    case FontFallback => Names(e.font.fallback)
    case FontFeatures => Names(e.font.features)
    case FontLigatures => Text(e.font.disableLigatures)
    case Font => NoValue
    case WindowOpacity => Number(e.window.opacity)
    case WindowPadding => Count(e.window.padding)
    case WindowRadius => Count(e.window.radiusPx)
    case BackgroundImage => TextOrNone(e.window.backgroundImage)
    case BackgroundFit => TextOrNone(e.window.backgroundFit)
    case BackgroundOpacity => NumberOrNone(e.window.backgroundOpacity)
    case BackgroundPosition => TextOrNone(e.window.backgroundPosition)
    case Window => NoValue
    case Theme => TextOrNone(e.theme)
    case Appearance => NoValue
    case SchemaVersion => Count(e.schemaVersion)
  }

  /** Whether `p` says anything about `f`: the background leaves only when set,
      every other leaf whenever its table is there. */
  predicate Declares(p: Plan, f: Field) {
    match f
    case FontFamily | FontSize | FontLineHeight | FontLetterSpacing | FontFallback | FontFeatures | FontLigatures
       | Font => p.font.Some?
    case WindowOpacity | WindowPadding | WindowRadius | Window => p.window.Some?
    case BackgroundImage => p.window.Some? && p.window.value.backgroundImage.Some?
    case BackgroundFit => p.window.Some? && p.window.value.backgroundFit.Some?
    case BackgroundOpacity => p.window.Some? && p.window.value.backgroundOpacity.Some?
    case BackgroundPosition => p.window.Some? && p.window.value.backgroundPosition.Some?
    case Theme | Appearance => p.appearance.Some?
    case SchemaVersion => p.schemaVersion.Some?
  }

  /** `e` with `p`'s value of `f`. */
  function Copied(e: Effective, p: Plan, f: Field): Effective
    requires Declares(p, f)
  {
    match f
    case FontFamily => e.(font := e.font.(family := p.font.value.family))
    case FontSize => e.(font := e.font.(size := p.font.value.size))
    case FontLineHeight => e.(font := e.font.(lineHeight := p.font.value.lineHeight))
    case FontLetterSpacing => e.(font := e.font.(letterSpacing := p.font.value.letterSpacing))
    case FontFallback => e.(font := e.font.(fallback := p.font.value.fallback))
    case FontFeatures => e.(font := e.font.(features := p.font.value.features))
    case FontLigatures => e.(font := e.font.(disableLigatures := p.font.value.disableLigatures))
    case WindowOpacity => e.(window := e.window.(opacity := p.window.value.opacity))
    case WindowPadding => e.(window := e.window.(padding := p.window.value.padding))
    case WindowRadius => e.(window := e.window.(radiusPx := p.window.value.radiusPx))
    case BackgroundImage => e.(window := e.window.(backgroundImage := p.window.value.backgroundImage))
    case BackgroundFit => e.(window := e.window.(backgroundFit := p.window.value.backgroundFit))
    case BackgroundOpacity => e.(window := e.window.(backgroundOpacity := p.window.value.backgroundOpacity))
    case BackgroundPosition => e.(window := e.window.(backgroundPosition := p.window.value.backgroundPosition))
    case Theme => e.(theme := p.appearance.value.theme)
    case SchemaVersion => e.(schemaVersion := p.schemaVersion.value)
    case Font => e
    case Window => e
    case Appearance => e
  }

  /** What `p` says about `f`. */
  function Said(p: Plan, f: Field): Value
    requires Declares(p, f)
  {
    match f
    case FontFamily => Text(p.font.value.family)
    case FontSize => Number(p.font.value.size)
    case FontLineHeight => Number(p.font.value.lineHeight)
    case FontLetterSpacing => Number(p.font.value.letterSpacing)
    case FontFallback => Names(p.font.value.fallback)
    case FontFeatures => Names(p.font.value.features)
    case FontLigatures => Text(p.font.value.disableLigatures)
    case Font => NoValue
    case WindowOpacity => Number(p.window.value.opacity)
    case WindowPadding => Count(p.window.value.padding)
    case WindowRadius => Count(p.window.value.radiusPx)
    case BackgroundImage => TextOrNone(p.window.value.backgroundImage)
    case BackgroundFit => TextOrNone(p.window.value.backgroundFit)
    case BackgroundOpacity => NumberOrNone(p.window.value.backgroundOpacity)
    case BackgroundPosition => TextOrNone(p.window.value.backgroundPosition)
    case Window => NoValue
    case Theme => TextOrNone(p.appearance.value.theme)
    case Appearance => NoValue
    case SchemaVersion => Count(p.schemaVersion.value)
  }

  /** Copying one field changes that field and no other. */
  lemma CopiedAt(e: Effective, p: Plan, f: Field, g: Field)
    requires Declares(p, f)
    ensures Get(Copied(e, p, f), g) == if f == g then Said(p, f) else Get(e, g)
    ensures Copied(e, p, f).window.blurRadius == e.window.blurRadius
  {
  }

  // ---------------------------------------------------------------- merging

  /** A field one source took from another. */
  datatype Conflict = Conflict(field: Field, previous: Source, newSource: Source)

  datatype Error =
    | Invalid(at: string)
    | NonOverridable(field: Field, policy: Source, attempted: Source)

  /** The merge's variables between two steps. */
  datatype Merging = Merging(effective: Effective, attribution: map<Field, Source>, conflicts: seq<Conflict>,
                             policyFields: map<Field, Source>, violations: seq<Error>)

  function Start(defaults: Effective): Merging { Merging(defaults, map[], [], map[], []) }

  /** `f` is pinned against this layer. */
  predicate Pinned(m: Merging, l: Layer, f: Field) {
    IsPinnable(f) && !IsPolicy(l.source.kind) && f in m.policyFields
  }

  /** The conflict merging `f` records, if any. */
  function ConflictAt(m: Merging, l: Layer, f: Field): seq<Conflict> {
    if !Declares(l.plan, f) || IsContainer(f) then []
    else if Pinned(m, l, f) then [Conflict(f, m.policyFields[f], l.source)]
    else if f in m.attribution then [Conflict(f, m.attribution[f], l.source)]
    else []
  }

  /** One field of one layer: a pinned field stays and is reported, any other
      declared field is replaced and re-attributed. */
  function MergeField(m: Merging, l: Layer, f: Field): Merging {
    if !Declares(l.plan, f) then m
    else if Pinned(m, l, f) then
      m.(conflicts := m.conflicts + ConflictAt(m, l, f),
         violations := m.violations + [NonOverridable(f, m.policyFields[f], l.source)])
    else
      Merging(Copied(m.effective, l.plan, f), m.attribution[f := l.source], m.conflicts + ConflictAt(m, l, f),
              if IsPinnable(f) && IsPolicy(l.source.kind) then m.policyFields[f := l.source] else m.policyFields,
              m.violations)
  }

  function MergeFields(m: Merging, l: Layer, fields: seq<Field>): Merging
    decreases |fields|
  {
    if fields == [] then m else MergeFields(MergeField(m, l, fields[0]), l, fields[1..])
  }

  /** Merges the layers one after the other, each field by field. */
  function MergeAll(defaults: Effective, order: seq<Field>, layers: seq<Layer>): Merging
    decreases |layers|
  {
    if layers == [] then Start(defaults)
    else MergeFields(MergeAll(defaults, order, layers[..|layers| - 1]), layers[|layers| - 1], order)
  }

  predicate LayerLe(a: Layer, b: Layer) { Precedence(a.source.kind) <= Precedence(b.source.kind) }

  function SortLayers(layers: seq<Layer>): seq<Layer> { SortBy(LayerLe, layers) }

  /** Fields no layer declared belong to the core defaults. */
  function Backfill(attribution: map<Field, Source>): (r: map<Field, Source>)
    ensures forall f :: f in r
    ensures forall f :: r[f] == if f in attribution then attribution[f] else CORE_SOURCE
  {
    map f: Field | true :: if f in attribution then attribution[f] else CORE_SOURCE
  }

  datatype Merged = Merged(effective: Effective, attribution: map<Field, Source>, conflicts: seq<Conflict>)

  /** The range checks of types.rs and plan.rs, and the built-in defaults. */
  datatype Checks = Checks(defaults: Effective, plan: Plan -> Option<string>, effective: Effective -> Option<string>)

  /** The first layer that fails its own validation, in input order. */
  function FirstInvalid(checks: Checks, layers: seq<Layer>): Option<string>
    decreases |layers|
  {
    if layers == [] then None
    else if checks.plan(layers[0].plan).Some? then checks.plan(layers[0].plan)
    else FirstInvalid(checks, layers[1..])
  }

  function MergeResult(checks: Checks, layers: seq<Layer>, validate: bool): Result<Merged, Error> {
    MergeInOrder(checks, MERGE_ORDER, layers, validate)
  }

  function MergeInOrder(checks: Checks, order: seq<Field>, layers: seq<Layer>, validate: bool): Result<Merged, Error> {
    var invalid := FirstInvalid(checks, layers);
    if invalid.Some? then Err(Invalid(invalid.value))
    else
      var m := MergeAll(checks.defaults, order, SortLayers(layers));
      if validate && checks.effective(m.effective).Some? then Err(Invalid(checks.effective(m.effective).value))
      else if m.violations != [] then Err(m.violations[0])
      else Ok(Merged(m.effective, Backfill(m.attribution), m.conflicts))
  }

  /** `merge_layers_inner`. */
  method MergeLayers(checks: Checks, layers: seq<Layer>, validate: bool) returns (r: Result<Merged, Error>)
    ensures r == MergeResult(checks, layers, validate)
  {
    var invalid := CheckPlans(checks, layers);
    if invalid.Some? {
      return Err(Invalid(invalid.value));
    }
    var effective, attribution, conflicts, _, violations :=
      MergeSorted(checks.defaults, MERGE_ORDER, SortLayers(layers));
    if validate && checks.effective(effective).Some? {
      return Err(Invalid(checks.effective(effective).value));
    }
    if violations != [] {
      return Err(violations[0]);
    }
    return Ok(Merged(effective, Backfill(attribution), conflicts));
  }

  /** Its first loop: every layer's own validation. */
  method CheckPlans(checks: Checks, layers: seq<Layer>) returns (invalid: Option<string>)
    ensures invalid == FirstInvalid(checks, layers)
  {
    for i := 0 to |layers|
      invariant FirstInvalid(checks, layers) == FirstInvalid(checks, layers[i..])
    {
      assert layers[i..][0] == layers[i] && layers[i..][1..] == layers[i + 1..];
      invalid := checks.plan(layers[i].plan);
      if invalid.Some? {
        return;
      }
    }
    assert layers[|layers|..] == [];
    return None;
  }

  /** Its second loop, over the sorted layers. */
  method MergeSorted(defaults: Effective, order: seq<Field>, sorted: seq<Layer>)
    returns (effective: Effective, attribution: map<Field, Source>, conflicts: seq<Conflict>,
             policyFields: map<Field, Source>, violations: seq<Error>)
    ensures Merging(effective, attribution, conflicts, policyFields, violations) == MergeAll(defaults, order, sorted)
  {
    effective, attribution, conflicts, policyFields, violations := defaults, map[], [], map[], [];
    for i := 0 to |sorted|
      invariant Merging(effective, attribution, conflicts, policyFields, violations)
             == MergeAll(defaults, order, sorted[..i])
    {
      MergeAllNext(defaults, order, sorted, i);
      effective, attribution, conflicts, policyFields, violations :=
        MergeOneLayer(sorted[i], order, effective, attribution, conflicts, policyFields, violations);
    }
    assert sorted[..|sorted|] == sorted;
  }

  lemma MergeAllNext(defaults: Effective, order: seq<Field>, layers: seq<Layer>, i: nat)
    requires i < |layers|
    ensures MergeAll(defaults, order, layers[..i + 1])
         == MergeFields(MergeAll(defaults, order, layers[..i]), layers[i], order)
  {
    assert layers[..i + 1][..i] == layers[..i];
  }

  /** The body of its layer loop, field by field. */
  method MergeOneLayer(l: Layer, order: seq<Field>, effective0: Effective, attribution0: map<Field, Source>,
                       conflicts0: seq<Conflict>, policyFields0: map<Field, Source>, violations0: seq<Error>)
    returns (effective: Effective, attribution: map<Field, Source>, conflicts: seq<Conflict>,
             policyFields: map<Field, Source>, violations: seq<Error>)
    ensures Merging(effective, attribution, conflicts, policyFields, violations)
         == MergeFields(Merging(effective0, attribution0, conflicts0, policyFields0, violations0), l, order)
  {
    effective, attribution, conflicts := effective0, attribution0, conflicts0;
    policyFields, violations := policyFields0, violations0;
    for i := 0 to |order|
      invariant MergeFields(Merging(effective, attribution, conflicts, policyFields, violations), l, order[i..])
             == MergeFields(Merging(effective0, attribution0, conflicts0, policyFields0, violations0), l, order)
    {
      var f := order[i];
      assert order[i..][0] == f && order[i..][1..] == order[i + 1..];
      ghost var before := Merging(effective, attribution, conflicts, policyFields, violations);
      if Declares(l.plan, f) {
        if IsPinnable(f) && !IsPolicy(l.source.kind) && f in policyFields {
          violations := violations + [NonOverridable(f, policyFields[f], l.source)];
          conflicts := conflicts + [Conflict(f, policyFields[f], l.source)];
        } else {
          if IsPinnable(f) && IsPolicy(l.source.kind) {
            policyFields := policyFields[f := l.source];
          }
          effective := Copied(effective, l.plan, f);
          if !IsContainer(f) && f in attribution {
            conflicts := conflicts + [Conflict(f, attribution[f], l.source)];
          }
          attribution := attribution[f := l.source];
        }
      }
      assert Merging(effective, attribution, conflicts, policyFields, violations) == MergeField(before, l, f);
    }
    assert order[|order|..] == [];
  }

  // ---------------------------------------------------------------- one layer, one field

  /** What merging `l` does to field `f`. */
  ghost predicate MergedAt(m: Merging, l: Layer, f: Field, r: Merging) {
    if !Declares(l.plan, f) || Pinned(m, l, f) then
      && Get(r.effective, f) == Get(m.effective, f)
      && (f in r.attribution <==> f in m.attribution)
      && (f in m.attribution ==> r.attribution[f] == m.attribution[f])
      && (f in r.policyFields <==> f in m.policyFields)
      && (f in m.policyFields ==> r.policyFields[f] == m.policyFields[f])
    else
      && Get(r.effective, f) == Said(l.plan, f)
      && f in r.attribution && r.attribution[f] == l.source
      && (f in r.policyFields <==> f in m.policyFields || (IsPinnable(f) && IsPolicy(l.source.kind)))
  }

  /** A field the listed ones leave alone. */
  ghost predicate Untouched(m: Merging, f: Field, r: Merging) {
    && Get(r.effective, f) == Get(m.effective, f)
    && (f in r.attribution <==> f in m.attribution)
    && (f in m.attribution ==> r.attribution[f] == m.attribution[f])
    && (f in r.policyFields <==> f in m.policyFields)
    && (f in m.policyFields ==> r.policyFields[f] == m.policyFields[f])
  }

  /** Re-attributing one field leaves the records of the others. */
  lemma RecordElsewhere(m: Merging, f: Field, g: Field, r: Merging, src: Source)
    requires f != g && Get(r.effective, g) == Get(m.effective, g)
    requires r.attribution == m.attribution[f := src]
    requires r.policyFields == m.policyFields || r.policyFields == m.policyFields[f := src]
    ensures Untouched(m, g, r)
  {
  }

  lemma MergeFieldElsewhere(m: Merging, l: Layer, f: Field, g: Field)
    requires f != g
    ensures Untouched(m, g, MergeField(m, l, f))
  {
    if Declares(l.plan, f) && !Pinned(m, l, f) {
      CopiedAt(m.effective, l.plan, f, g);
      RecordElsewhere(m, f, g, MergeField(m, l, f), l.source);
    }
  }

  lemma SameConflicts(m: Merging, l: Layer, g: Field, r: Merging)
    requires Untouched(m, g, r)
    ensures ConflictAt(r, l, g) == ConflictAt(m, l, g)
    ensures Pinned(r, l, g) <==> Pinned(m, l, g)
  {
  }

  lemma MergeFieldHere(m: Merging, l: Layer, f: Field)
    ensures MergedAt(m, l, f, MergeField(m, l, f))
  {
    if Declares(l.plan, f) && !Pinned(m, l, f) {
      CopiedAt(m.effective, l.plan, f, f);
    }
  }

  lemma UntouchedThenMerged(m: Merging, l: Layer, f: Field, next: Merging, r: Merging)
    requires Untouched(m, f, next) && MergedAt(next, l, f, r)
    requires Pinned(next, l, f) <==> Pinned(m, l, f)
    ensures MergedAt(m, l, f, r)
  {
  }

  lemma {:induction false} MergeFieldsElsewhere(m: Merging, l: Layer, fields: seq<Field>, g: Field)
    requires g !in fields
    ensures Untouched(m, g, MergeFields(m, l, fields))
    decreases |fields|
  {
    if fields == [] {
    } else {
      MergeFieldElsewhere(m, l, fields[0], g);
      MergeFieldsElsewhere(MergeField(m, l, fields[0]), l, fields[1..], g);
    }
  }

  lemma {:induction false} MergeFieldsAt(m: Merging, l: Layer, fields: seq<Field>, f: Field)
    requires Distinct(fields) && f in fields
    ensures MergedAt(m, l, f, MergeFields(m, l, fields))
    decreases |fields|
  {
    var next := MergeField(m, l, fields[0]);
    InTail(fields, f);
    if f == fields[0] {
      MergeFieldHere(m, l, f);
      MergeFieldsElsewhere(next, l, fields[1..], f);
      MergedThenUntouched(m, l, f, next, MergeFields(m, l, fields));
    } else {
      MergeFieldElsewhere(m, l, fields[0], f);
      SameConflicts(m, l, f, next);
      MergeFieldsAt(next, l, fields[1..], f);
      UntouchedThenMerged(m, l, f, next, MergeFields(m, l, fields));
    }
  }

  lemma MergedThenUntouched(m: Merging, l: Layer, f: Field, next: Merging, r: Merging)
    requires MergedAt(m, l, f, next) && Untouched(next, f, r)
    ensures MergedAt(m, l, f, r)
  {
  }

  /** The conflicts merging `fields` records, in order. */
  function NewConflicts(m: Merging, l: Layer, fields: seq<Field>): seq<Conflict> {
    if fields == [] then [] else ConflictAt(m, l, fields[0]) + NewConflicts(m, l, fields[1..])
  }

  lemma {:induction false} SameNewConflicts(m: Merging, n: Merging, l: Layer, fields: seq<Field>)
    requires forall f :: f in fields ==> ConflictAt(n, l, f) == ConflictAt(m, l, f)
    ensures NewConflicts(n, l, fields) == NewConflicts(m, l, fields)
  {
    if fields == [] {
    } else {
      SameNewConflicts(m, n, l, fields[1..]);
    }
  }

  lemma {:induction false} NewConflictsAre(m: Merging, l: Layer, fields: seq<Field>, c: Conflict)
    ensures c in NewConflicts(m, l, fields) <==> c.field in fields && ConflictAt(m, l, c.field) == [c]
  {
    if fields == [] {
    } else {
      NewConflictsAre(m, l, fields[1..], c);
      OneConflict(m, l, fields[0], c);
      assert c.field in fields <==> c.field == fields[0] || c.field in fields[1..];
    }
  }

  lemma OneConflict(m: Merging, l: Layer, f: Field, c: Conflict)
    ensures c in ConflictAt(m, l, f) <==> c.field == f && ConflictAt(m, l, f) == [c]
  {
  }

  /** One field merged, the others record what they would have. */
  lemma RestRecordsSame(m: Merging, l: Layer, fields: seq<Field>)
    requires Distinct(fields) && fields != []
    ensures forall g :: g in fields[1..] ==>
              && ConflictAt(MergeField(m, l, fields[0]), l, g) == ConflictAt(m, l, g)
              && (Pinned(MergeField(m, l, fields[0]), l, g) <==> Pinned(m, l, g))
  {
    var next := MergeField(m, l, fields[0]);
    forall g | g in fields[1..] ensures ConflictAt(next, l, g) == ConflictAt(m, l, g)
                                   && (Pinned(next, l, g) <==> Pinned(m, l, g)) {
      InTail(fields, g);
      MergeFieldElsewhere(m, l, fields[0], g);
      SameConflicts(m, l, g, next);
    }
  }

  /** Conflicts pile up, one per field concerned. */
  lemma {:induction false} MergeFieldsConflicts(m: Merging, l: Layer, fields: seq<Field>)
    requires Distinct(fields)
    ensures MergeFields(m, l, fields).conflicts == m.conflicts + NewConflicts(m, l, fields)
    decreases |fields|
  {
    if fields == [] {
      assert NewConflicts(m, l, fields) == [];
    } else {
      var next := MergeField(m, l, fields[0]);
      MergeFieldsConflicts(next, l, fields[1..]);
      RestRecordsSame(m, l, fields);
      SameNewConflicts(m, next, l, fields[1..]);
      MergeFieldRecords(m, l, fields[0]);
      AppendTwice(m.conflicts, ConflictAt(m, l, fields[0]), NewConflicts(m, l, fields[1..]));
    }
  }

  lemma AppendTwice(a: seq<Conflict>, b: seq<Conflict>, c: seq<Conflict>)
    ensures (a + b) + c == a + (b + c)
  {
  }

  ghost predicate NonePinned(m: Merging, l: Layer, fields: seq<Field>) {
    forall f :: f in fields && Declares(l.plan, f) ==> !Pinned(m, l, f)
  }

  lemma NonePinnedCons(m: Merging, next: Merging, l: Layer, fields: seq<Field>)
    requires fields != [] && forall g :: g in fields[1..] ==> (Pinned(next, l, g) <==> Pinned(m, l, g))
    ensures NonePinned(m, l, fields) <==>
              (Declares(l.plan, fields[0]) ==> !Pinned(m, l, fields[0])) && NonePinned(next, l, fields[1..])
  {
    assert forall g :: g in fields <==> g == fields[0] || g in fields[1..];
  }

  /** Violations pile up, one per pinned field. */
  lemma {:induction false} MergeFieldsRecords(m: Merging, l: Layer, fields: seq<Field>)
    requires Distinct(fields)
    ensures MergeFields(m, l, fields).violations == [] <==> m.violations == [] && NonePinned(m, l, fields)
    ensures MergeFields(m, l, fields).effective.window.blurRadius == m.effective.window.blurRadius
    decreases |fields|
  {
    if fields == [] {
      assert NonePinned(m, l, fields);
    } else {
      var next := MergeField(m, l, fields[0]);
      MergeFieldsRecords(next, l, fields[1..]);
      RestRecordsSame(m, l, fields);
      NonePinnedCons(m, next, l, fields);
      MergeFieldRecords(m, l, fields[0]);
    }
  }

  lemma MergeFieldRecords(m: Merging, l: Layer, f: Field)
    ensures MergeField(m, l, f).conflicts == m.conflicts + ConflictAt(m, l, f)
    ensures MergeField(m, l, f).violations == [] <==> m.violations == [] && (Declares(l.plan, f) ==> !Pinned(m, l, f))
    ensures MergeField(m, l, f).effective.window.blurRadius == m.effective.window.blurRadius
  {
  }

  function Rank(f: Field): nat {
    match f
    case FontFamily => 0 case FontSize => 1 case FontLineHeight => 2 case FontLetterSpacing => 3
    case FontFallback => 4 case FontFeatures => 5 case FontLigatures => 6 case Font => 7 case WindowOpacity => 8
    case WindowPadding => 9 case WindowRadius => 10 case BackgroundImage => 11 case BackgroundFit => 12
    case BackgroundOpacity => 13 case BackgroundPosition => 14 case Window => 15 case Theme => 16
    case Appearance => 17 case SchemaVersion => 18
  }

  lemma RankAt(i: nat)
    requires i < |MERGE_ORDER|
    ensures Rank(MERGE_ORDER[i]) == i
  {
  }

  lemma OrderDistinct(order: seq<Field>)
    requires order == MERGE_ORDER
    ensures Distinct(order)
  {
    forall i, j | 0 <= i < j < |order| ensures order[i] != order[j] {
      RankAt(i);
      RankAt(j);
    }
  }

  lemma OrderComplete(f: Field)
    ensures f in MERGE_ORDER
  {
    assert MERGE_ORDER[Rank(f)] == f;
  }

  /** Every field once, in some order. */
  ghost predicate Canonical(order: seq<Field>) { Distinct(order) && forall f: Field :: f in order }

  lemma OrderCanonical()
    ensures Canonical(MERGE_ORDER)
  {
    OrderDistinct(MERGE_ORDER);
    forall f ensures f in MERGE_ORDER {
      OrderComplete(f);
    }
  }

  /** Everything one layer does, whatever order its fields are visited in. */
  lemma MergeLayerDoes(m: Merging, l: Layer, order: seq<Field>)
    requires Canonical(order)
    ensures var r := MergeFields(m, l, order);
            && (forall f :: MergedAt(m, l, f, r))
            && r.conflicts == m.conflicts + NewConflicts(m, l, order)
            && (forall c :: c in r.conflicts <==> c in m.conflicts || ConflictAt(m, l, c.field) == [c])
            && (r.violations == [] <==> m.violations == [] && forall f :: Declares(l.plan, f) ==> !Pinned(m, l, f))
            && r.effective.window.blurRadius == m.effective.window.blurRadius
  {
    MergeFieldsRecords(m, l, order);
    MergeFieldsConflicts(m, l, order);
    forall c ensures c in NewConflicts(m, l, order) <==> ConflictAt(m, l, c.field) == [c] {
      NewConflictsAre(m, l, order, c);
    }
    forall f ensures MergedAt(m, l, f, MergeFields(m, l, order)) {
      MergeFieldsAt(m, l, order, f);
    }
  }

  // ---------------------------------------------------------------- who wins a field

  /** The last layer of `s` that says anything about `f`. */
  function LastDeclarer(s: seq<Layer>, f: Field): (w: Option<Layer>)
    ensures w.Some? ==> w.value in s && Declares(w.value.plan, f)
    decreases |s|
  {
    if s == [] then None
    else if Declares(s[|s| - 1].plan, f) then Some(s[|s| - 1])
    else LastDeclarer(s[..|s| - 1], f)
  }

  /** Field `f` is what `w` said, or the default when there is no `w`. */
  ghost predicate FieldFrom(defaults: Effective, m: Merging, f: Field, w: Option<Layer>)
    requires w.Some? ==> Declares(w.value.plan, f)
  {
    if w.Some? then
      Get(m.effective, f) == Said(w.value.plan, f) && f in m.attribution && m.attribution[f] == w.value.source
    else
      Get(m.effective, f) == Get(defaults, f) && f !in m.attribution
  }

  /** Without violations, a field is what its last declarer said. */
  lemma {:induction false} MergeAllAt(defaults: Effective, order: seq<Field>, s: seq<Layer>, f: Field)
    requires Canonical(order) && MergeAll(defaults, order, s).violations == []
    ensures FieldFrom(defaults, MergeAll(defaults, order, s), f, LastDeclarer(s, f))
    decreases |s|
  {
    if s == [] {
    } else {
      var last, m := s[|s| - 1], MergeAll(defaults, order, s[..|s| - 1]);
      MergeLayerDoes(m, last, order);
      MergeAllAt(defaults, order, s[..|s| - 1], f);
      assert MergedAt(m, last, f, MergeFields(m, last, order));
    }
  }

  lemma {:induction false} LastDeclarerCons(a: Layer, s: seq<Layer>, f: Field)
    ensures var w := LastDeclarer(s, f);
            LastDeclarer([a] + s, f) == if w.Some? then w else if Declares(a.plan, f) then Some(a) else None
    decreases |s|
  {
    if s == [] {
      assert [a] + s == [a] && [a][..0] == [];
    } else {
      assert ([a] + s)[..|s|] == [a] + s[..|s| - 1];
      LastDeclarerCons(a, s[..|s| - 1], f);
    }
  }

  /** Of an earlier layer and the winner after it, the earlier wins only with a
      strictly higher precedence. */
  function Better(a: Layer, w: Option<Layer>, f: Field): Option<Layer> {
    if Declares(a.plan, f) && (w == None || Precedence(a.source.kind) > Precedence(w.value.source.kind)) then Some(a)
    else w
  }

  function WinnerOf(layers: seq<Layer>, f: Field): Option<Layer> {
    if layers == [] then None else Better(layers[0], WinnerOf(layers[1..], f), f)
  }

  lemma FirstOfSorted(s: seq<Layer>, w: Layer)
    requires SortedBy(LayerLe, s) && w in s
    ensures LayerLe(s[0], w)
  {
    var i :| 0 <= i < |s| && s[i] == w;
    assert i == 0 || LayerLe(s[0], s[i]);
  }

  lemma WinnerBehindFirst(x: Layer, s: seq<Layer>, f: Field)
    requires SortedBy(LayerLe, s) && (s == [] || LayerLe(x, s[0]))
    ensures LastDeclarer([x] + s, f) == Better(x, LastDeclarer(s, f), f)
  {
    var w := LastDeclarer(s, f);
    LastDeclarerCons(x, s, f);
    if w.Some? {
      FirstOfSorted(s, w.value);
    }
  }

  lemma {:induction false} InsertedWinner(x: Layer, s: seq<Layer>, f: Field)
    requires SortedBy(LayerLe, s)
    ensures LastDeclarer(Insert(LayerLe, x, s), f) == Better(x, LastDeclarer(s, f), f)
    decreases |s|
  {
    if s == [] || LayerLe(x, s[0]) {
      WinnerBehindFirst(x, s, f);
    } else {
      var rest := s[1..];
      InsertedWinner(x, rest, f);
      BetterPastFirst(x, s[0], rest, Insert(LayerLe, x, rest), f);
      assert s == [s[0]] + rest;
    }
  }

  lemma BetterPastFirst(x: Layer, a: Layer, rest: seq<Layer>, inserted: seq<Layer>, f: Field)
    requires !LayerLe(x, a) && LastDeclarer(inserted, f) == Better(x, LastDeclarer(rest, f), f)
    ensures LastDeclarer([a] + inserted, f) == Better(x, LastDeclarer([a] + rest, f), f)
  {
    LastDeclarerCons(a, rest, f);
    LastDeclarerCons(a, inserted, f);
  }

  lemma PrecedencePreorder()
    ensures TotalPreorder(LayerLe)
  {
  }

  lemma {:induction false} SortedWinner(layers: seq<Layer>, f: Field)
    ensures LastDeclarer(SortLayers(layers), f) == WinnerOf(layers, f)
    decreases |layers|
  {
    if layers == [] {
    } else {
      SortedWinner(layers[1..], f);
      PrecedencePreorder();
      SortSorts(LayerLe, layers[1..]);
      InsertedWinner(layers[0], SortLayers(layers[1..]), f);
    }
  }

  /** Layer `i` outranks every other layer that declares `f`: a higher
      precedence, or the same and a later place in the input. */
  ghost predicate Wins(layers: seq<Layer>, f: Field, i: nat) {
    && i < |layers| && Declares(layers[i].plan, f)
    && forall j :: 0 <= j < |layers| && j != i && Declares(layers[j].plan, f) ==> Outranks(layers[i], layers[j], j < i)
  }

  predicate Outranks(a: Layer, b: Layer, later: bool) {
    var pa, pb := Precedence(a.source.kind), Precedence(b.source.kind);
    pb < pa || (pb == pa && later)
  }

  lemma {:induction false} WinnerIsOutranking(layers: seq<Layer>, f: Field, i: nat)
    requires Wins(layers, f, i)
    ensures WinnerOf(layers, f) == Some(layers[i])
    decreases |layers|
  {
    var rest := layers[1..];
    if i > 0 {
      forall j | 0 <= j < |rest| && j != i - 1 && Declares(rest[j].plan, f)
        ensures Outranks(rest[i - 1], rest[j], j < i - 1) {
        assert rest[j] == layers[j + 1];
      }
      WinnerIsOutranking(rest, f, i - 1);
    } else {
      WinnerDeclares(rest, f);
      if WinnerOf(rest, f).Some? {
        var j :| 0 <= j < |rest| && rest[j] == WinnerOf(rest, f).value;
        assert layers[j + 1] == rest[j];
      }
    }
  }

  lemma {:induction false} WinnerDeclares(layers: seq<Layer>, f: Field)
    ensures WinnerOf(layers, f).Some? ==>
              WinnerOf(layers, f).value in layers && Declares(WinnerOf(layers, f).value.plan, f)
    ensures WinnerOf(layers, f).None? ==> forall j :: 0 <= j < |layers| ==> !Declares(layers[j].plan, f)
    decreases |layers|
  {
    if layers == [] {
    } else {
      WinnerDeclares(layers[1..], f);
      assert forall j :: 0 < j < |layers| ==> layers[j] == layers[1..][j - 1];
    }
  }

  lemma WinnerInOrder(checks: Checks, order: seq<Field>, layers: seq<Layer>, validate: bool, merged: Merged, f: Field,
                      i: nat)
    requires Canonical(order) && MergeInOrder(checks, order, layers, validate) == Ok(merged) && Wins(layers, f, i)
    ensures f in merged.attribution && merged.attribution[f] == layers[i].source
    ensures Get(merged.effective, f) == Said(layers[i].plan, f)
  {
    MergeAllAt(checks.defaults, order, SortLayers(layers), f);
    SortedWinner(layers, f);
    WinnerIsOutranking(layers, f, i);
  }

  /** A merge gives every field the value and the source of the layer that wins
      it, whatever the input order of the layers of different precedence. */
  lemma MergeTakesWinner(checks: Checks, layers: seq<Layer>, validate: bool, f: Field, i: nat)
    requires MergeResult(checks, layers, validate).Ok? && Wins(layers, f, i)
    ensures var merged := MergeResult(checks, layers, validate).value;
            && Get(merged.effective, f) == Said(layers[i].plan, f)
            && merged.attribution[f] == layers[i].source
  {
    OrderCanonical();
    WinnerInOrder(checks, MERGE_ORDER, layers, validate, MergeResult(checks, layers, validate).value, f, i);
  }

  lemma DefaultInOrder(checks: Checks, order: seq<Field>, layers: seq<Layer>, validate: bool, merged: Merged, f: Field)
    requires Canonical(order) && MergeInOrder(checks, order, layers, validate) == Ok(merged)
    requires forall j :: 0 <= j < |layers| ==> !Declares(layers[j].plan, f)
    ensures f in merged.attribution && merged.attribution[f] == CORE_SOURCE
    ensures Get(merged.effective, f) == Get(checks.defaults, f)
  {
    MergeAllAt(checks.defaults, order, SortLayers(layers), f);
    SortedWinner(layers, f);
    WinnerDeclares(layers, f);
  }

  /** A field no layer declares keeps its default, owned by the core defaults. */
  lemma MergeKeepsDefaults(checks: Checks, layers: seq<Layer>, validate: bool, f: Field)
    requires MergeResult(checks, layers, validate).Ok?
    requires forall j :: 0 <= j < |layers| ==> !Declares(layers[j].plan, f)
    ensures var merged := MergeResult(checks, layers, validate).value;
            && Get(merged.effective, f) == Get(checks.defaults, f)
            && merged.attribution[f] == CORE_SOURCE
  {
    OrderCanonical();
    DefaultInOrder(checks, MERGE_ORDER, layers, validate, MergeResult(checks, layers, validate).value, f);
  }

  // ---------------------------------------------------------------- policy pins

  /** Some policy layer of `s` declares the pinnable field `f`. */
  ghost predicate PolicyOn(s: seq<Layer>, f: Field) {
    IsPinnable(f) && exists j :: 0 <= j < |s| && IsPolicy(s[j].source.kind) && Declares(s[j].plan, f)
  }

  lemma PolicyOnSnoc(init: seq<Layer>, last: Layer, f: Field)
    ensures PolicyOn(init + [last], f)
       <==> PolicyOn(init, f) || (IsPinnable(f) && IsPolicy(last.source.kind) && Declares(last.plan, f))
  {
    var s := init + [last];
    if PolicyOn(init, f) {
      var j :| 0 <= j < |init| && IsPolicy(init[j].source.kind) && Declares(init[j].plan, f);
      assert s[j] == init[j];
    }
    if PolicyOn(s, f) {
      var j :| 0 <= j < |s| && IsPolicy(s[j].source.kind) && Declares(s[j].plan, f);
      assert j == |init| || s[j] == init[j];
    }
    assert s[|init|] == last;
  }

  lemma {:induction false} PinsArePolicies(defaults: Effective, order: seq<Field>, s: seq<Layer>, f: Field)
    requires Canonical(order)
    ensures f in MergeAll(defaults, order, s).policyFields <==> PolicyOn(s, f)
    decreases |s|
  {
    if s == [] {
    } else {
      var init, last := s[..|s| - 1], s[|s| - 1];
      var m := MergeAll(defaults, order, init);
      MergeLayerDoes(m, last, order);
      assert MergedAt(m, last, f, MergeFields(m, last, order));
      PinsArePolicies(defaults, order, init, f);
      PolicyOnSnoc(init, last, f);
      assert s == init + [last];
    }
  }

  /** No layer overrides an earlier policy pin. */
  ghost predicate PinsRespected(s: seq<Layer>) {
    forall i, f: Field :: 0 <= i < |s| && Declares(s[i].plan, f) && !IsPolicy(s[i].source.kind) ==> !PolicyOn(s[..i], f)
  }

  lemma PinsRespectedSnoc(init: seq<Layer>, last: Layer)
    ensures PinsRespected(init + [last])
       <==> PinsRespected(init)
            && forall f: Field :: Declares(last.plan, f) && !IsPolicy(last.source.kind) ==> !PolicyOn(init, f)
  {
    var s := init + [last];
    assert forall i :: 0 <= i < |init| ==> s[i] == init[i] && s[..i] == init[..i];
    assert s[|init|] == last && s[..|init|] == init;
    if PinsRespected(s) {
      forall i, f: Field | 0 <= i < |init| && Declares(init[i].plan, f) && !IsPolicy(init[i].source.kind)
        ensures !PolicyOn(init[..i], f) {
        assert s[..i] == init[..i];
      }
    }
  }

  lemma {:induction false} ViolationsExactly(defaults: Effective, order: seq<Field>, s: seq<Layer>)
    requires Canonical(order)
    ensures MergeAll(defaults, order, s).violations == [] <==> PinsRespected(s)
    decreases |s|
  {
    if s == [] {
    } else {
      var init, last := s[..|s| - 1], s[|s| - 1];
      var m := MergeAll(defaults, order, init);
      ViolationsExactly(defaults, order, init);
      MergeLayerDoes(m, last, order);
      forall f: Field ensures Pinned(m, last, f) <==> !IsPolicy(last.source.kind) && PolicyOn(init, f) {
        PinsArePolicies(defaults, order, init, f);
      }
      PinsRespectedSnoc(init, last);
      assert s == init + [last];
    }
  }

  /** A layer above the policy layer declares a field `a` pins. */
  predicate Contests(a: Layer, b: Layer, f: Field) {
    && IsPolicy(a.source.kind) && IsPinnable(f) && Declares(a.plan, f)
    && Precedence(SystemPolicy) < Precedence(b.source.kind) && Declares(b.plan, f)
  }

  ghost predicate PolicyUncontested(layers: seq<Layer>) {
    forall a, b, f: Field :: a in layers && b in layers ==> !Contests(a, b, f)
  }

  lemma SortedPlaces(s: seq<Layer>, i: nat, j: nat)
    requires SortedBy(LayerLe, s) && i < |s| && j < |s| && !LayerLe(s[i], s[j])
    ensures j < i
  {
  }

  lemma ContestBreaksPin(s: seq<Layer>, a: Layer, b: Layer, f: Field)
    requires SortedBy(LayerLe, s) && a in s && b in s && Contests(a, b, f)
    ensures !PinsRespected(s)
  {
    var j :| 0 <= j < |s| && s[j] == a;
    var i :| 0 <= i < |s| && s[i] == b;
    SortedPlaces(s, i, j);
    assert s[..i][j] == a;
    assert PolicyOn(s[..i], f);
  }

  lemma SortedPinsRespected(layers: seq<Layer>)
    ensures PinsRespected(SortLayers(layers)) <==> PolicyUncontested(layers)
  {
    var s := SortLayers(layers);
    PrecedencePreorder();
    SortSorts(LayerLe, layers);
    SortMembers(LayerLe, layers);
    forall a, b, f: Field | a in layers && b in layers && Contests(a, b, f) ensures !PinsRespected(s) {
      ContestBreaksPin(s, a, b, f);
    }
    if PolicyUncontested(layers) {
      forall i, f: Field | 0 <= i < |s| && Declares(s[i].plan, f) && !IsPolicy(s[i].source.kind)
        ensures !PolicyOn(s[..i], f) {
        forall j | 0 <= j < i ensures IsPolicy(s[j].source.kind) && IsPinnable(f) ==> !Declares(s[j].plan, f) {
          assert LayerLe(s[j], s[i]) && s[j] in s && s[i] in s;
          assert !Contests(s[j], s[i], f);
        }
      }
    }
  }

  /** Layers that pass their own checks are refused as overriding policy
      exactly when one above the policy layer declares a pinned field. */
  lemma PolicyIsEnforced(checks: Checks, layers: seq<Layer>)
    requires FirstInvalid(checks, layers).None?
    ensures MergeResult(checks, layers, false).Ok? <==> PolicyUncontested(layers)
    ensures MergeResult(checks, layers, true).Ok? ==> PolicyUncontested(layers)
  {
    OrderCanonical();
    ViolationsExactly(checks.defaults, MERGE_ORDER, SortLayers(layers));
    SortedPinsRespected(layers);
  }

  /** Every conflict names as its new source a layer that declares the field. */
  lemma {:induction false} ConflictsNameLayers(defaults: Effective, order: seq<Field>, s: seq<Layer>, c: Conflict)
    requires Canonical(order) && c in MergeAll(defaults, order, s).conflicts
    ensures exists l :: l in s && l.source == c.newSource && Declares(l.plan, c.field)
    decreases |s|
  {
    var init, last := s[..|s| - 1], s[|s| - 1];
    var m := MergeAll(defaults, order, init);
    MergeLayerDoes(m, last, order);
    if c in m.conflicts {
      ConflictsNameLayers(defaults, order, init, c);
      var l :| l in init && l.source == c.newSource && Declares(l.plan, c.field);
      assert l in s;
    } else {
      assert ConflictAt(m, last, c.field) == [c];
      assert last in s;
    }
  }

  // ---------------------------------------------------------------- when a merge succeeds

  /** The layers from lowest to highest; only the policy layer pins. */
  lemma PrecedenceOrder()
    ensures Precedence(CoreDefaults) < Precedence(SystemDefaults) < Precedence(SystemPolicy) < Precedence(Distribution)
    ensures Precedence(Distribution) < Precedence(Profile) < Precedence(User) < Precedence(TrustedLocal)
    ensures Precedence(TrustedLocal) < Precedence(Cli)
    ensures forall k :: IsPolicy(k) <==> k == SystemPolicy
  {
  }

  /** Layer `i` is the first one, in input order, to fail its own checks. */
  ghost predicate FirstToFail(checks: Checks, layers: seq<Layer>, i: nat, at: string) {
    && i < |layers| && checks.plan(layers[i].plan) == Some(at)
    && forall j :: 0 <= j < i ==> checks.plan(layers[j].plan).None?
  }

  ghost predicate AllValid(checks: Checks, layers: seq<Layer>) {
    forall j :: 0 <= j < |layers| ==> checks.plan(layers[j].plan).None?
  }

  lemma {:induction false} FirstInvalidIs(checks: Checks, layers: seq<Layer>)
    ensures FirstInvalid(checks, layers).None? <==> AllValid(checks, layers)
    ensures FirstInvalid(checks, layers).Some? ==>
              exists i: nat :: FirstToFail(checks, layers, i, FirstInvalid(checks, layers).value)
    decreases |layers|
  {
    if layers == [] {
    } else if checks.plan(layers[0].plan).Some? {
      assert FirstToFail(checks, layers, 0, FirstInvalid(checks, layers).value);
    } else {
      var rest := layers[1..];
      FirstInvalidIs(checks, rest);
      assert forall j :: 0 < j < |layers| ==> layers[j] == rest[j - 1];
      if FirstInvalid(checks, rest).Some? {
        var i: nat :| FirstToFail(checks, rest, i, FirstInvalid(checks, rest).value);
        assert FirstToFail(checks, layers, i + 1, FirstInvalid(checks, rest).value);
      }
    }
  }

  lemma FirstToFailIs(checks: Checks, layers: seq<Layer>, i: nat, at: string)
    requires FirstToFail(checks, layers, i, at)
    ensures FirstInvalid(checks, layers) == Some(at)
  {
    FirstInvalidIs(checks, layers);
    var j: nat :| FirstToFail(checks, layers, j, FirstInvalid(checks, layers).value);
    assert i == j;
  }

  /** `e` holds, field by field, what the winning layers say, and the defaults
      elsewhere. */
  ghost predicate HoldsWinners(defaults: Effective, layers: seq<Layer>, e: Effective) {
    && e.window.blurRadius == defaults.window.blurRadius
    && forall f :: Get(e, f) == WinningValue(defaults, layers, f)
  }

  ghost function WinningValue(defaults: Effective, layers: seq<Layer>, f: Field): Value {
    WinnerDeclares(layers, f);
    var w := WinnerOf(layers, f);
    if w.Some? then Said(w.value.plan, f) else Get(defaults, f)
  }

  lemma {:induction false} BlurNeverMerged(defaults: Effective, order: seq<Field>, s: seq<Layer>)
    requires Canonical(order)
    ensures MergeAll(defaults, order, s).effective.window.blurRadius == defaults.window.blurRadius
    decreases |s|
  {
    if s == [] {
    } else {
      BlurNeverMerged(defaults, order, s[..|s| - 1]);
      MergeLayerDoes(MergeAll(defaults, order, s[..|s| - 1]), s[|s| - 1], order);
    }
  }

  lemma UncontestedHoldsWinners(defaults: Effective, order: seq<Field>, layers: seq<Layer>)
    requires Canonical(order) && MergeAll(defaults, order, SortLayers(layers)).violations == []
    ensures HoldsWinners(defaults, layers, MergeAll(defaults, order, SortLayers(layers)).effective)
  {
    BlurNeverMerged(defaults, order, SortLayers(layers));
    var e := MergeAll(defaults, order, SortLayers(layers)).effective;
    forall f ensures Get(e, f) == WinningValue(defaults, layers, f) {
      MergeAllAt(defaults, order, SortLayers(layers), f);
      SortedWinner(layers, f);
    }
  }

  lemma SameFont(a: Effective, b: Effective)
    requires forall f :: Get(a, f) == Get(b, f)
    ensures a.font == b.font
  {
    assert Get(a, FontFamily) == Get(b, FontFamily) && Get(a, FontSize) == Get(b, FontSize);
    assert Get(a, FontLineHeight) == Get(b, FontLineHeight) && Get(a, FontLetterSpacing) == Get(b, FontLetterSpacing);
    assert Get(a, FontFallback) == Get(b, FontFallback) && Get(a, FontFeatures) == Get(b, FontFeatures);
    assert Get(a, FontLigatures) == Get(b, FontLigatures);
  }

  lemma SameWindow(a: Effective, b: Effective)
    requires forall f :: Get(a, f) == Get(b, f)
    requires a.window.blurRadius == b.window.blurRadius
    ensures a.window == b.window
  {
    assert Get(a, WindowOpacity) == Get(b, WindowOpacity) && Get(a, WindowPadding) == Get(b, WindowPadding);
    assert Get(a, WindowRadius) == Get(b, WindowRadius);
    SameOption(a.window.backgroundImage, b.window.backgroundImage, Get(a, BackgroundImage), Get(b, BackgroundImage));
    SameOption(a.window.backgroundFit, b.window.backgroundFit, Get(a, BackgroundFit), Get(b, BackgroundFit));
    SameOption(a.window.backgroundPosition, b.window.backgroundPosition, Get(a, BackgroundPosition),
               Get(b, BackgroundPosition));
    assert Get(a, BackgroundOpacity) == Get(b, BackgroundOpacity);
  }

  lemma SameOption(a: Option<string>, b: Option<string>, x: Value, y: Value)
    requires x == TextOrNone(a) && y == TextOrNone(b) && x == y
    ensures a == b
  {
  }

  /** There is one configuration of winners. */
  lemma WinnersUnique(defaults: Effective, layers: seq<Layer>, a: Effective, b: Effective)
    requires HoldsWinners(defaults, layers, a) && HoldsWinners(defaults, layers, b)
    ensures a == b
  {
    forall f ensures Get(a, f) == Get(b, f) {
    }
    SameFont(a, b);
    SameWindow(a, b);
    SameOption(a.theme, b.theme, Get(a, Theme), Get(b, Theme));
    assert Get(a, SchemaVersion) == Get(b, SchemaVersion);
  }

  /** The winning values pass the final validation. */
  ghost predicate WinnersValid(checks: Checks, layers: seq<Layer>) {
    exists e :: HoldsWinners(checks.defaults, layers, e) && checks.effective(e).None?
  }

  lemma OutcomeInOrder(checks: Checks, order: seq<Field>, layers: seq<Layer>, validate: bool)
    requires Canonical(order)
    ensures MergeInOrder(checks, order, layers, validate).Ok?
       <==> AllValid(checks, layers) && PolicyUncontested(layers) && (validate ==> WinnersValid(checks, layers))
    ensures MergeInOrder(checks, order, layers, validate).Ok? ==>
              HoldsWinners(checks.defaults, layers, MergeInOrder(checks, order, layers, validate).value.effective)
  {
    var m := MergeAll(checks.defaults, order, SortLayers(layers));
    FirstInvalidIs(checks, layers);
    ViolationsExactly(checks.defaults, order, SortLayers(layers));
    SortedPinsRespected(layers);
    if m.violations == [] {
      UncontestedHoldsWinners(checks.defaults, order, layers);
      forall e | HoldsWinners(checks.defaults, layers, e) ensures e == m.effective {
        WinnersUnique(checks.defaults, layers, e, m.effective);
      }
    }
  }

  /** A merge succeeds exactly when every layer passes its own checks, no policy
      pin is contested and, when asked for, the winning values pass the final
      check; and then it yields those values. */
  lemma MergeSucceedsExactly(checks: Checks, layers: seq<Layer>, validate: bool)
    ensures MergeResult(checks, layers, validate).Ok?
       <==> AllValid(checks, layers) && PolicyUncontested(layers) && (validate ==> WinnersValid(checks, layers))
    ensures MergeResult(checks, layers, validate).Ok? ==>
              HoldsWinners(checks.defaults, layers, MergeResult(checks, layers, validate).value.effective)
  {
    OrderCanonical();
    OutcomeInOrder(checks, MERGE_ORDER, layers, validate);
  }

  /** The first layer to fail its own checks decides the error. */
  lemma FirstFailureDecides(checks: Checks, layers: seq<Layer>, validate: bool, i: nat, at: string)
    requires FirstToFail(checks, layers, i, at)
    ensures MergeResult(checks, layers, validate) == Err(Invalid(at))
  {
    FirstToFailIs(checks, layers, i, at);
  }

  /** Valid, uncontested layers whose winning values fail the final check are
      refused with its error. */
  lemma FinalCheckDecides(checks: Checks, order: seq<Field>, layers: seq<Layer>, e: Effective, at: string)
    requires Canonical(order) && AllValid(checks, layers) && PolicyUncontested(layers)
    requires HoldsWinners(checks.defaults, layers, e) && checks.effective(e) == Some(at)
    ensures MergeInOrder(checks, order, layers, true) == Err(Invalid(at))
  {
    FirstInvalidIs(checks, layers);
    ViolationsExactly(checks.defaults, order, SortLayers(layers));
    SortedPinsRespected(layers);
    UncontestedHoldsWinners(checks.defaults, order, layers);
    WinnersUnique(checks.defaults, layers, e, MergeAll(checks.defaults, order, SortLayers(layers)).effective);
  }

  // contested pins

  /** A violation names a policy layer and a layer above it contesting its pin. */
  ghost predicate NamesContest(s: seq<Layer>, v: Error) {
    exists a, b, f: Field :: a in s && b in s && IsPolicy(a.source.kind) && IsPinnable(f) && Declares(a.plan, f)
      && !IsPolicy(b.source.kind) && Declares(b.plan, f) && v == NonOverridable(f, a.source, b.source)
  }

  /** The pin of `f` by `source` is some policy layer's. */
  ghost predicate PinFrom(s: seq<Layer>, f: Field, source: Source) {
    IsPinnable(f) && exists a :: a in s && IsPolicy(a.source.kind) && Declares(a.plan, f) && source == a.source
  }

  ghost predicate PinsFrom(s: seq<Layer>, m: Merging) {
    forall f :: f in m.policyFields ==> PinFrom(s, f, m.policyFields[f])
  }

  ghost predicate ViolationsFrom(s: seq<Layer>, m: Merging) {
    forall i :: 0 <= i < |m.violations| ==> NamesContest(s, m.violations[i])
  }

  lemma PinnedIsContest(s: seq<Layer>, m: Merging, l: Layer, f: Field)
    requires l in s && PinsFrom(s, m) && Declares(l.plan, f) && Pinned(m, l, f)
    ensures NamesContest(s, NonOverridable(f, m.policyFields[f], l.source))
  {
    assert PinFrom(s, f, m.policyFields[f]);
  }

  lemma PolicyLayerPins(s: seq<Layer>, l: Layer, f: Field)
    requires l in s && Declares(l.plan, f) && IsPinnable(f) && IsPolicy(l.source.kind)
    ensures PinFrom(s, f, l.source)
  {
  }

  lemma MergeFieldNames(s: seq<Layer>, m: Merging, l: Layer, f: Field)
    requires l in s && PinsFrom(s, m) && ViolationsFrom(s, m)
    ensures PinsFrom(s, MergeField(m, l, f)) && ViolationsFrom(s, MergeField(m, l, f))
  {
    if !Declares(l.plan, f) {
    } else if Pinned(m, l, f) {
      PinnedIsContest(s, m, l, f);
    } else if IsPinnable(f) && IsPolicy(l.source.kind) {
      PolicyLayerPins(s, l, f);
    }
  }

  lemma {:induction false} MergeFieldsName(s: seq<Layer>, m: Merging, l: Layer, fields: seq<Field>)
    requires l in s && PinsFrom(s, m) && ViolationsFrom(s, m)
    ensures PinsFrom(s, MergeFields(m, l, fields)) && ViolationsFrom(s, MergeFields(m, l, fields))
    decreases |fields|
  {
    if fields == [] {
    } else {
      MergeFieldNames(s, m, l, fields[0]);
      MergeFieldsName(s, MergeField(m, l, fields[0]), l, fields[1..]);
    }
  }

  lemma {:induction false} MergeAllNames(defaults: Effective, order: seq<Field>, all: seq<Layer>, s: seq<Layer>)
    requires forall l :: l in s ==> l in all
    ensures PinsFrom(all, MergeAll(defaults, order, s)) && ViolationsFrom(all, MergeAll(defaults, order, s))
    decreases |s|
  {
    if s == [] {
    } else {
      MergeAllNames(defaults, order, all, s[..|s| - 1]);
      MergeFieldsName(all, MergeAll(defaults, order, s[..|s| - 1]), s[|s| - 1], order);
    }
  }

  /** Valid layers that contest a pin are refused; without final validation the
      error names such a contest. */
  lemma ContestIsNamed(checks: Checks, order: seq<Field>, layers: seq<Layer>)
    requires Canonical(order) && AllValid(checks, layers) && !PolicyUncontested(layers)
    ensures MergeInOrder(checks, order, layers, false).Err?
    ensures NamesContest(layers, MergeInOrder(checks, order, layers, false).error)
  {
    FirstInvalidIs(checks, layers);
    ViolationsExactly(checks.defaults, order, SortLayers(layers));
    SortedPinsRespected(layers);
    SortMembers(LayerLe, layers);
    MergeAllNames(checks.defaults, order, layers, SortLayers(layers));
  }

  // ---------------------------------------------------------------- whole tables

  /** Layer `i` has the table or key `has` looks for and outranks every other
      layer that has it. */
  ghost predicate Leads(layers: seq<Layer>, i: nat, has: Plan -> bool) {
    && i < |layers| && has(layers[i].plan)
    && forall j :: 0 <= j < |layers| && j != i && has(layers[j].plan) ==> Outranks(layers[i], layers[j], j < i)
  }

  predicate HasFont(p: Plan) { p.font.Some? }

  predicate HasWindow(p: Plan) { p.window.Some? }

  predicate HasImage(p: Plan) { p.window.Some? && p.window.value.backgroundImage.Some? }

  predicate HasFit(p: Plan) { p.window.Some? && p.window.value.backgroundFit.Some? }

  predicate HasOpacity(p: Plan) { p.window.Some? && p.window.value.backgroundOpacity.Some? }

  predicate HasPosition(p: Plan) { p.window.Some? && p.window.value.backgroundPosition.Some? }

  predicate HasAppearance(p: Plan) { p.appearance.Some? }

  predicate HasSchema(p: Plan) { p.schemaVersion.Some? }

  /** The leading font table is taken over whole; the leading window table gives
      opacity, padding and corner radius. */
  ghost predicate TablesFrom(layers: seq<Layer>, i: nat, e: Effective)
    requires i < |layers|
  {
    var p := layers[i].plan;
    && (Leads(layers, i, HasFont) ==> e.font == p.font.value)
    && (Leads(layers, i, HasWindow) ==>
          && e.window.opacity == p.window.value.opacity
          && e.window.padding == p.window.value.padding
          && e.window.radiusPx == p.window.value.radiusPx)
    && (Leads(layers, i, HasAppearance) ==> e.theme == p.appearance.value.theme)
    && (Leads(layers, i, HasSchema) ==> e.schemaVersion == p.schemaVersion.value)
  }

  /** Each background key comes from the leading window table that sets it: an
      absent key hides nothing below it. */
  ghost predicate BackgroundFrom(layers: seq<Layer>, i: nat, e: Effective)
    requires i < |layers|
  {
    var p := layers[i].plan;
    && (Leads(layers, i, HasImage) ==> e.window.backgroundImage == p.window.value.backgroundImage)
    && (Leads(layers, i, HasFit) ==> e.window.backgroundFit == p.window.value.backgroundFit)
    && (Leads(layers, i, HasOpacity) ==> e.window.backgroundOpacity == p.window.value.backgroundOpacity)
    && (Leads(layers, i, HasPosition) ==> e.window.backgroundPosition == p.window.value.backgroundPosition)
  }

  ghost predicate TakesWinners(layers: seq<Layer>, e: Effective) {
    forall f, i: nat :: Wins(layers, f, i) ==> Get(e, f) == Said(layers[i].plan, f)
  }

  lemma LeaderWins(layers: seq<Layer>, i: nat, has: Plan -> bool, f: Field)
    requires Leads(layers, i, has) && forall p :: Declares(p, f) <==> has(p)
    ensures Wins(layers, f, i)
  {
  }

  lemma WinnersGiveFont(layers: seq<Layer>, i: nat, e: Effective)
    requires TakesWinners(layers, e) && Leads(layers, i, HasFont)
    ensures e.font == layers[i].plan.font.value
  {
    LeaderWins(layers, i, HasFont, FontFamily);
    LeaderWins(layers, i, HasFont, FontSize);
    LeaderWins(layers, i, HasFont, FontLineHeight);
    LeaderWins(layers, i, HasFont, FontLetterSpacing);
    LeaderWins(layers, i, HasFont, FontFallback);
    LeaderWins(layers, i, HasFont, FontFeatures);
    LeaderWins(layers, i, HasFont, FontLigatures);
  }

  lemma WinnersGiveWindow(layers: seq<Layer>, i: nat, e: Effective)
    requires TakesWinners(layers, e) && Leads(layers, i, HasWindow)
    ensures e.window.opacity == layers[i].plan.window.value.opacity
    ensures e.window.padding == layers[i].plan.window.value.padding
    ensures e.window.radiusPx == layers[i].plan.window.value.radiusPx
  {
    LeaderWins(layers, i, HasWindow, WindowOpacity);
    LeaderWins(layers, i, HasWindow, WindowPadding);
    LeaderWins(layers, i, HasWindow, WindowRadius);
  }

  lemma WinnersGiveTables(layers: seq<Layer>, i: nat, e: Effective)
    requires TakesWinners(layers, e) && i < |layers|
    ensures TablesFrom(layers, i, e)
  {
    if Leads(layers, i, HasFont) { WinnersGiveFont(layers, i, e); }
    if Leads(layers, i, HasWindow) { WinnersGiveWindow(layers, i, e); }
    if Leads(layers, i, HasAppearance) { LeaderWins(layers, i, HasAppearance, Theme); }
    if Leads(layers, i, HasSchema) { LeaderWins(layers, i, HasSchema, SchemaVersion); }
  }

  lemma WinnersGiveBackground(layers: seq<Layer>, i: nat, e: Effective)
    requires TakesWinners(layers, e) && i < |layers|
    ensures BackgroundFrom(layers, i, e)
  {
    if Leads(layers, i, HasImage) { LeaderWins(layers, i, HasImage, BackgroundImage); }
    if Leads(layers, i, HasFit) { LeaderWins(layers, i, HasFit, BackgroundFit); }
    if Leads(layers, i, HasOpacity) { LeaderWins(layers, i, HasOpacity, BackgroundOpacity); }
    if Leads(layers, i, HasPosition) { LeaderWins(layers, i, HasPosition, BackgroundPosition); }
  }

  lemma MergedTakesWinners(checks: Checks, layers: seq<Layer>, validate: bool, merged: Merged)
    requires MergeResult(checks, layers, validate) == Ok(merged)
    ensures TakesWinners(layers, merged.effective)
  {
    OrderCanonical();
    forall f, i: nat | Wins(layers, f, i) ensures Get(merged.effective, f) == Said(layers[i].plan, f) {
      WinnerInOrder(checks, MERGE_ORDER, layers, validate, merged, f, i);
    }
  }

  /** A merge takes over the leading layer's tables and keys. */
  lemma MergeTakesTables(checks: Checks, layers: seq<Layer>, validate: bool, merged: Merged, i: nat)
    requires MergeResult(checks, layers, validate) == Ok(merged) && i < |layers|
    ensures TablesFrom(layers, i, merged.effective) && BackgroundFrom(layers, i, merged.effective)
  {
    MergedTakesWinners(checks, layers, validate, merged);
    WinnersGiveTables(layers, i, merged.effective);
    WinnersGiveBackground(layers, i, merged.effective);
  }

  predicate ShareTable(a: Plan, b: Plan) {
    || (a.font.Some? && b.font.Some?)
    || (a.window.Some? && b.window.Some?)
    || (a.appearance.Some? && b.appearance.Some?)
  }

  /** `a` is a policy layer, and `b` lies above it with one of its tables. */
  predicate SharesAbove(a: Layer, b: Layer) {
    a.source.kind == SystemPolicy && Precedence(SystemPolicy) < Precedence(b.source.kind) && ShareTable(a.plan, b.plan)
  }

  /** A policy layer is contested exactly when a layer above it has a font,
      window or appearance table that the policy layer has too; the schema
      version pins nothing. */
  lemma ContestIsSharedTable(layers: seq<Layer>)
    ensures PolicyUncontested(layers) <==> forall a, b :: a in layers && b in layers ==> !SharesAbove(a, b)
  {
    forall a, b: Layer, f: Field | Contests(a, b, f) ensures SharesAbove(a, b) {
    }
    forall a, b: Layer | SharesAbove(a, b) ensures exists f: Field :: Contests(a, b, f) {
      assert Contests(a, b, FontFamily) || Contests(a, b, WindowOpacity) || Contests(a, b, Theme);
    }
  }

  // ---------------------------------------------------------------- which conflicts are recorded

  /** Layer `i` of `s` takes a field, no table name, from the last layer before it
      that has it. */
  ghost predicate TakesOver(s: seq<Layer>, i: nat, c: Conflict) {
    && i < |s| && Declares(s[i].plan, c.field) && !IsContainer(c.field) && c.newSource == s[i].source
    && LastDeclarer(s[..i], c.field).Some? && c.previous == LastDeclarer(s[..i], c.field).value.source
  }

  lemma TakesOverSnoc(init: seq<Layer>, last: Layer, c: Conflict)
    ensures (exists i: nat :: TakesOver(init + [last], i, c))
       <==> (exists i: nat :: TakesOver(init, i, c)) || TakesOver(init + [last], |init|, c)
  {
    var s := init + [last];
    forall i: nat | i < |init| ensures TakesOver(s, i, c) <==> TakesOver(init, i, c) {
      assert s[i] == init[i] && s[..i] == init[..i];
    }
  }

  lemma ConflictOfLast(defaults: Effective, order: seq<Field>, init: seq<Layer>, last: Layer, c: Conflict)
    requires Canonical(order)
    requires MergeAll(defaults, order, init).violations == []
    requires Declares(last.plan, c.field) ==> !Pinned(MergeAll(defaults, order, init), last, c.field)
    ensures ConflictAt(MergeAll(defaults, order, init), last, c.field) == [c] <==> TakesOver(init + [last], |init|, c)
  {
    MergeAllAt(defaults, order, init, c.field);
    assert (init + [last])[..|init|] == init;
  }

  /** Without violations the conflicts are exactly the takeovers. */
  lemma {:induction false} ConflictsExactly(defaults: Effective, order: seq<Field>, s: seq<Layer>, c: Conflict)
    requires Canonical(order) && MergeAll(defaults, order, s).violations == []
    ensures c in MergeAll(defaults, order, s).conflicts <==> exists i: nat :: TakesOver(s, i, c)
    decreases |s|
  {
    if s == [] {
    } else {
      var init, last := s[..|s| - 1], s[|s| - 1];
      MergeLayerDoes(MergeAll(defaults, order, init), last, order);
      ConflictsExactly(defaults, order, init, c);
      ConflictOfLast(defaults, order, init, last, c);
      TakesOverSnoc(init, last, c);
      assert s == init + [last];
    }
  }

  /** A merge reports exactly the fields one layer, in order of precedence, took
      from another, with both sources. */
  lemma MergeReportsTakeovers(checks: Checks, layers: seq<Layer>, validate: bool, merged: Merged, c: Conflict)
    requires MergeResult(checks, layers, validate) == Ok(merged)
    ensures c in merged.conflicts <==> exists i: nat :: TakesOver(SortLayers(layers), i, c)
  {
    OrderCanonical();
    ConflictsExactly(checks.defaults, MERGE_ORDER, SortLayers(layers), c);
  }
}
