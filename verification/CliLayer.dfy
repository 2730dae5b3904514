/** CLI overrides over the merged profile and file layers
    (crates/bitty-config/src/file.rs): each flag replaces its own field and
    leaves every other value and source as the lower layers had it. */
module CliLayer {
  import opened Wrappers
  import opened Text
  import opened Ordering
  import opened LayerMerge

  const CURRENT_SCHEMA_VERSION: nat := 1
  const MAX_FONT_FAMILY_LEN: nat := 128

  /** The raw flag values. */
  datatype CliOverrides = CliOverrides(theme: Option<string>, fontFamily: Option<string>, fontSize: Option<string>,
                                       opacity: Option<string>)

  /** The numeric parse and the range checks the CLI raws go through, beside
      those of the merge. */
  datatype CliChecks = CliChecks(merge: Checks, parseFloat: string -> Option<real>, theme: string -> Option<string>,
                                 font: FontTable -> Option<string>, window: WindowTable -> Option<string>)

  /** A raw flag counts only when something is left after trimming. */
  function CliPresent(raw: Option<string>): Option<string> {
    if raw.Some? && Trim(Rust, raw.value) != [] then Some(Trim(Rust, raw.value)) else None
  }

  predicate NoOverride(cli: CliOverrides) {
    CliPresent(cli.theme).None? && CliPresent(cli.fontFamily).None? && CliPresent(cli.fontSize).None?
    && CliPresent(cli.opacity).None?
  }

  /** `overrides_field`. */
  predicate OverridesField(cli: CliOverrides, f: Field) {
    match f
    case Theme => CliPresent(cli.theme).Some?
    case FontFamily => CliPresent(cli.fontFamily).Some?
    case FontSize => CliPresent(cli.fontSize).Some?
    case WindowOpacity => CliPresent(cli.opacity).Some?
    case _ => false
  }

  // ---------------------------------------------------------------- the CLI layer

  /** `parse_cli_float` on an optional flag. */
  function ParsedFlag(checks: CliChecks, raw: Option<string>, at: string): Result<Option<real>, Error> {
    var present := CliPresent(raw);
    if present.None? then Ok(None)
    else
      var parsed := checks.parseFloat(present.value);
      if parsed.None? then Err(Invalid(at)) else Ok(parsed)
  }

  /** `validate_appearance_overrides`: the first violation, if any. */
  function FlagViolation(checks: CliChecks, cli: CliOverrides): Option<Error> {
    var theme, family := CliPresent(cli.theme), CliPresent(cli.fontFamily);
    if theme.Some? && checks.theme(theme.value).Some? then Some(Invalid(checks.theme(theme.value).value))
    else if family.Some? && ByteLen(family.value) > MAX_FONT_FAMILY_LEN then Some(Invalid("font.family"))
    else
      var size := ParsedFlag(checks, cli.fontSize, "font.size");
      if size.Err? then Some(size.error)
      else if size.value.Some? && checks.font(ProbeFont(checks, size.value.value)).Some? then
        Some(Invalid(checks.font(ProbeFont(checks, size.value.value)).value))
      else
        var opacity := ParsedFlag(checks, cli.opacity, "window.opacity");
        if opacity.Err? then Some(opacity.error)
        else if opacity.value.Some? && checks.window(ProbeWindow(checks, opacity.value.value)).Some? then
          Some(Invalid(checks.window(ProbeWindow(checks, opacity.value.value)).value))
        else None
  }

  function ProbeFont(checks: CliChecks, size: real): FontTable {
    checks.merge.defaults.font.(family := "cli", size := size)
  }

  function ProbeWindow(checks: CliChecks, opacity: real): WindowTable {
    checks.merge.defaults.window.(opacity := opacity)
  }

  function Flags(cli: CliOverrides): seq<string> {
    (if CliPresent(cli.theme).Some? then ["--theme"] else [])
    + (if OverridesField(cli, FontFamily) then ["--font-family"] else [])
    + (if OverridesField(cli, FontSize) then ["--font-size"] else [])
    + (if OverridesField(cli, WindowOpacity) then ["--opacity"] else [])
  }

  /** Names the active flags. */
  function CliSource(cli: CliOverrides): Source {
    Source(Cli, Some(if Flags(cli) == [] then "cli" else "cli:" + Join(Flags(cli), ',')), None)
  }

  function OrElse<T>(o: Option<T>, default: T): T { if o.Some? then o.value else default }

  /** The font table of the CLI layer, siblings inherited from `base`. */
  function CliFont(base: FontTable, family: Option<string>, size: Option<real>): Option<FontTable> {
    if family.None? && size.None? then None
    else Some(FontTable(OrElse(family, base.family), OrElse(size, base.size), base.lineHeight, base.letterSpacing,
                        base.fallback, base.features, base.disableLigatures))
  }

  function CliWindow(base: WindowTable, opacity: Option<real>): Option<WindowTable> {
    if opacity.None? then None
    else Some(WindowTable(opacity.value, base.padding, base.radiusPx, base.blurRadius, base.backgroundImage,
                          base.backgroundFit, base.backgroundOpacity, base.backgroundPosition))
  }

  /** `to_layer_with_base`. */
  function ToLayerWithBase(checks: CliChecks, cli: CliOverrides, base: Effective): Result<Option<Layer>, Error> {
    var violation := FlagViolation(checks, cli);
    if violation.Some? then Err(violation.value)
    else
      var theme, family := CliPresent(cli.theme), CliPresent(cli.fontFamily);
      var size := ParsedFlag(checks, cli.fontSize, "font.size");
      var opacity := ParsedFlag(checks, cli.opacity, "window.opacity");
      if size.Err? then Err(size.error)
      else if opacity.Err? then Err(opacity.error)
      else if theme.None? && family.None? && size.value.None? && opacity.value.None? then Ok(None)
      else
        var font := CliFont(base.font, family, size.value);
        var window := CliWindow(base.window, opacity.value);
        var plan := Plan(font, window, if theme.Some? then Some(AppearanceTable(theme)) else None,
                         Some(CURRENT_SCHEMA_VERSION));
        if font.Some? && checks.font(font.value).Some? then Err(Invalid(checks.font(font.value).value))
        else if window.Some? && checks.window(window.value).Some? then
          Err(Invalid(checks.window(window.value).value))
        else if checks.merge.plan(plan).Some? then Err(Invalid(checks.merge.plan(plan).value))
        else Ok(Some(Layer(CliSource(cli), plan)))
  }

  // ---------------------------------------------------------------- layering

  /** The fields whose base source is restored after the second merge. */
  const RESTORED: seq<Field> := [
    FontFamily, FontSize, FontLineHeight, FontLetterSpacing, FontFallback, FontFeatures, FontLigatures,
    WindowOpacity, WindowPadding, WindowRadius, BackgroundImage, BackgroundFit, BackgroundOpacity,
    BackgroundPosition]

  function Restored(attribution: map<Field, Source>, base: map<Field, Source>, cli: CliOverrides, fields: seq<Field>)
    : map<Field, Source>
    decreases |fields|
  {
    if fields == [] then attribution
    else if !OverridesField(cli, fields[0]) && fields[0] in base then
      Restored(attribution[fields[0] := base[fields[0]]], base, cli, fields[1..])
    else Restored(attribution, base, cli, fields[1..])
  }

  /** A conflict the second merge only has because the CLI tables are atomic. */
  predicate Spurious(cli: CliOverrides, c: Conflict) { c.newSource.kind == Cli && !OverridesField(cli, c.field) }

  ghost predicate NoneSpurious(cli: CliOverrides, conflicts: seq<Conflict>) {
    forall c :: c in conflicts ==> !Spurious(cli, c)
  }

  function Retained(conflicts: seq<Conflict>, cli: CliOverrides): seq<Conflict>
    decreases |conflicts|
  {
    if conflicts == [] then []
    else if Spurious(cli, conflicts[0]) then Retained(conflicts[1..], cli)
    else [conflicts[0]] + Retained(conflicts[1..], cli)
  }

  function LowerLayers(file: Option<Layer>, profiles: seq<Layer>): seq<Layer> {
    profiles + if file.Some? then [file.value] else []
  }

  function Layered(checks: CliChecks, lower: seq<Layer>, cli: CliOverrides, validate: bool): Result<Merged, Error> {
    LayeredIn(checks, MERGE_ORDER, RESTORED, lower, cli, validate)
  }

  function LayeredIn(checks: CliChecks, order: seq<Field>, restored: seq<Field>, lower: seq<Layer>,
                     cli: CliOverrides, validate: bool): Result<Merged, Error>
  {
    var base := MergeInOrder(checks.merge, order, lower, validate);
    if NoOverride(cli) || base.Err? then base else OverBase(checks, order, restored, lower, cli, base.value, validate)
  }

  /** The CLI layer merged over its base, with the base sources restored. */
  function OverBase(checks: CliChecks, order: seq<Field>, restored: seq<Field>, lower: seq<Layer>,
                    cli: CliOverrides, base: Merged, validate: bool): Result<Merged, Error>
  {
    var layer := ToLayerWithBase(checks, cli, base.effective);
    if layer.Err? then Err(layer.error)
    else
      var layers := lower + if layer.value.Some? then [layer.value.value] else [];
      var merged := MergeInOrder(checks.merge, order, layers, validate);
      if merged.Err? then merged
      else
        Ok(merged.value.(
           attribution := Restored(merged.value.attribution, base.attribution, cli, restored),
           conflicts := Retained(merged.value.conflicts, cli)))
  }

  /** `resolve_effective_with_profiles_inner`. */
  method ResolveEffective(checks: CliChecks, file: Option<Layer>, profiles: seq<Layer>, cli: CliOverrides,
                          validate: bool)
    returns (r: Result<Merged, Error>)
    ensures r == Layered(checks, LowerLayers(file, profiles), cli, validate)
  {
    var lower: seq<Layer> := [];
    for i := 0 to |profiles|
      invariant lower == profiles[..i]
    {
      lower := lower + [profiles[i]];
    }
    if file.Some? {
      lower := lower + [file.value];
    }
    assert lower == LowerLayers(file, profiles);
    if NoOverride(cli) {
      r := MergeLayers(checks.merge, lower, validate);
      return;
    }
    var base := MergeLayers(checks.merge, lower, validate);
    if base.Err? {
      return base;
    }
    r := MergeOverBase(checks, lower, cli, base.value, validate);
  }

  /** Its second half, once the base is merged. */
  method MergeOverBase(checks: CliChecks, lower: seq<Layer>, cli: CliOverrides, base: Merged, validate: bool)
    returns (r: Result<Merged, Error>)
    ensures r == OverBase(checks, MERGE_ORDER, RESTORED, lower, cli, base, validate)
  {
    var cliLayer := ToLayerWithBase(checks, cli, base.effective);
    if cliLayer.Err? {
      return Err(cliLayer.error);
    }
    var layers := lower;
    if cliLayer.value.Some? {
      layers := layers + [cliLayer.value.value];
    }
    assert layers == lower + if cliLayer.value.Some? then [cliLayer.value.value] else [];
    var merged := MergeLayers(checks.merge, layers, validate);
    if merged.Err? {
      return merged;
    }
    var attribution := RestoreSources(RESTORED, cli, base.attribution, merged.value.attribution);
    var conflicts := RetainConflicts(cli, merged.value.conflicts);
    return Ok(merged.value.(attribution := attribution, conflicts := conflicts));
  }

  /** Its restore loop. */
  method RestoreSources(fields: seq<Field>, cli: CliOverrides, base: map<Field, Source>, merged: map<Field, Source>)
    returns (attribution: map<Field, Source>)
    ensures attribution == Restored(merged, base, cli, fields)
  {
    attribution := merged;
    for i := 0 to |fields|
      invariant Restored(attribution, base, cli, fields[i..]) == Restored(merged, base, cli, fields)
    {
      var field := fields[i];
      assert fields[i..][0] == field && fields[i..][1..] == fields[i + 1..];
      if !OverridesField(cli, field) {
        if field in base {
          attribution := attribution[field := base[field]];
        }
      }
    }
    assert fields[|fields|..] == [];
  }

  /** Its `retain`. */
  method RetainConflicts(cli: CliOverrides, all: seq<Conflict>) returns (conflicts: seq<Conflict>)
    ensures conflicts == Retained(all, cli)
  {
    conflicts := [];
    for i := 0 to |all|
      invariant conflicts + Retained(all[i..], cli) == Retained(all, cli)
    {
      assert all[i..][0] == all[i] && all[i..][1..] == all[i + 1..];
      if !(all[i].newSource.kind == Cli && !OverridesField(cli, all[i].field)) {
        conflicts := conflicts + [all[i]];
      }
    }
    assert all[|all|..] == [];
  }

  // ---------------------------------------------------------------- what the CLI layer says

  /** The value a flag asks for. */
  function FlagValue(checks: CliChecks, cli: CliOverrides, f: Field): Value
    requires OverridesField(cli, f)
  {
    match f
    case Theme => Text(CliPresent(cli.theme).value)
    case FontFamily => Text(CliPresent(cli.fontFamily).value)
    case FontSize => NumberOrNone(checks.parseFloat(CliPresent(cli.fontSize).value))
    case WindowOpacity => NumberOrNone(checks.parseFloat(CliPresent(cli.opacity).value))
  }

  /** The value field `f` should have after layering over `base`. */
  function Wanted(checks: CliChecks, cli: CliOverrides, base: Effective, f: Field): Value {
    if OverridesField(cli, f) then FlagValue(checks, cli, f)
    else if f.SchemaVersion? && !NoOverride(cli) then Count(CURRENT_SCHEMA_VERSION)
    else Get(base, f)
  }

  predicate FontFlag(cli: CliOverrides) { OverridesField(cli, FontFamily) || OverridesField(cli, FontSize) }

  /** The fields attributed to the CLI: the overridden ones, their tables, and
      the schema version. */
  predicate OwnedByCli(cli: CliOverrides, f: Field) {
    || OverridesField(cli, f)
    || (f.Font? && FontFlag(cli))
    || (f.Window? && OverridesField(cli, WindowOpacity))
    || (f.Appearance? && OverridesField(cli, Theme))
    || (f.SchemaVersion? && !NoOverride(cli))
  }

  /** The CLI plan, spelled out. */
  lemma CliPlanIs(checks: CliChecks, cli: CliOverrides, base: Effective)
    requires !NoOverride(cli) && ToLayerWithBase(checks, cli, base).Ok?
    ensures var r := ToLayerWithBase(checks, cli, base).value;
            && r.Some? && r.value.source == CliSource(cli)
            && ParsedFlag(checks, cli.fontSize, "font.size").Ok?
            && ParsedFlag(checks, cli.opacity, "window.opacity").Ok?
            && r.value.plan == CliPlan(cli, base, ParsedFlag(checks, cli.fontSize, "font.size").value,
                                       ParsedFlag(checks, cli.opacity, "window.opacity").value)
  {
  }

  lemma FlagParsed(checks: CliChecks, raw: Option<string>, at: string)
    requires ParsedFlag(checks, raw, at).Ok?
    ensures var size := ParsedFlag(checks, raw, at).value;
            && (size.Some? <==> CliPresent(raw).Some?)
            && (size.Some? ==> Some(size.value) == checks.parseFloat(CliPresent(raw).value))
  {
  }

  function CliPlan(cli: CliOverrides, base: Effective, size: Option<real>, opacity: Option<real>): Plan {
    Plan(CliFont(base.font, CliPresent(cli.fontFamily), size), CliWindow(base.window, opacity),
         if CliPresent(cli.theme).Some? then Some(AppearanceTable(CliPresent(cli.theme))) else None,
         Some(CURRENT_SCHEMA_VERSION))
  }

  /** Whatever the CLI layer declares it says as wanted, and what it leaves out
      is wanted unchanged. */
  lemma CliPlanSays(checks: CliChecks, cli: CliOverrides, base: Effective, size: Option<real>,
                    opacity: Option<real>, f: Field)
    requires !NoOverride(cli)
    requires ParsedFlag(checks, cli.fontSize, "font.size") == Ok(size)
    requires ParsedFlag(checks, cli.opacity, "window.opacity") == Ok(opacity)
    ensures var plan := CliPlan(cli, base, size, opacity);
            if Declares(plan, f) then Said(plan, f) == Wanted(checks, cli, base, f)
            else Wanted(checks, cli, base, f) == Get(base, f)
  {
    FlagParsed(checks, cli.fontSize, "font.size");
    FlagParsed(checks, cli.opacity, "window.opacity");
  }

  /** It declares what the CLI owns and fields whose source is restored. */
  lemma CliPlanOwns(checks: CliChecks, cli: CliOverrides, base: Effective, size: Option<real>,
                    opacity: Option<real>, f: Field)
    requires !NoOverride(cli)
    requires ParsedFlag(checks, cli.fontSize, "font.size") == Ok(size)
    requires ParsedFlag(checks, cli.opacity, "window.opacity") == Ok(opacity)
    ensures OwnedByCli(cli, f) ==> Declares(CliPlan(cli, base, size, opacity), f)
    ensures Declares(CliPlan(cli, base, size, opacity), f) && !OwnedByCli(cli, f) ==> IsRestored(f)
  {
    FlagParsed(checks, cli.fontSize, "font.size");
    FlagParsed(checks, cli.opacity, "window.opacity");
    PlanDeclares(CliPlan(cli, base, size, opacity), cli, f);
  }

  /** Which tables a plan holds settles which of the CLI's fields it declares. */
  lemma PlanDeclares(plan: Plan, cli: CliOverrides, f: Field)
    requires !NoOverride(cli) && plan.schemaVersion.Some?
    requires plan.font.Some? <==> FontFlag(cli)
    requires plan.window.Some? <==> OverridesField(cli, WindowOpacity)
    requires plan.appearance.Some? <==> OverridesField(cli, Theme)
    ensures OwnedByCli(cli, f) ==> Declares(plan, f)
    ensures Declares(plan, f) && !OwnedByCli(cli, f) ==> IsRestored(f)
  {
  }

  predicate IsRestored(f: Field) { !IsContainer(f) && !f.Theme? && !f.SchemaVersion? }

  lemma RestoredListed(f: Field)
    ensures f in RESTORED <==> IsRestored(f)
  {
    if IsRestored(f) {
      assert RESTORED[if Rank(f) < 7 then Rank(f) else Rank(f) - 1] == f;
    }
  }

  // ---------------------------------------------------------------- the two merges

  lemma {:induction false} InsertBeforeLast(a: Layer, s: seq<Layer>, x: Layer)
    requires LayerLe(a, x)
    ensures Insert(LayerLe, a, s + [x]) == Insert(LayerLe, a, s) + [x]
    decreases |s|
  {
    if s != [] && !LayerLe(a, s[0]) {
      assert (s + [x])[1..] == s[1..] + [x];
      InsertBeforeLast(a, s[1..], x);
    }
  }

  /** A layer of the highest precedence added last is merged last. */
  lemma {:induction false} SortKeepsLast(s: seq<Layer>, x: Layer)
    requires x.source.kind == Cli
    ensures SortLayers(s + [x]) == SortLayers(s) + [x]
    decreases |s|
  {
    if s == [] {
      assert s + [x] == [x] && [x][1..] == [];
    } else {
      assert (s + [x])[1..] == s[1..] + [x];
      SortKeepsLast(s[1..], x);
      InsertBeforeLast(s[0], SortLayers(s[1..]), x);
    }
  }

  /** The second merge is the first followed by the CLI layer. */
  lemma SecondMerge(checks: Checks, order: seq<Field>, lower: seq<Layer>, cl: Layer, validate: bool)
    requires cl.source.kind == Cli
    requires MergeInOrder(checks, order, lower + [cl], validate).Ok?
    ensures var m := MergeAll(checks.defaults, order, SortLayers(lower));
            var r := MergeFields(m, cl, order);
            && MergeInOrder(checks, order, lower + [cl], validate).value
            == Merged(r.effective, Backfill(r.attribution), r.conflicts)
            && r.violations == []
  {
    SortKeepsLast(lower, cl);
    assert (SortLayers(lower) + [cl])[..|SortLayers(lower)|] == SortLayers(lower);
  }

  lemma {:induction false} RestoredAt(attribution: map<Field, Source>, base: map<Field, Source>, cli: CliOverrides,
                                      fields: seq<Field>, f: Field)
    requires f in attribution && f in base
    ensures f in Restored(attribution, base, cli, fields)
    ensures Restored(attribution, base, cli, fields)[f]
         == if f in fields && !OverridesField(cli, f) then base[f] else attribution[f]
    decreases |fields|
  {
    if fields == [] {
    } else {
      var g := fields[0];
      RestoredAt(if !OverridesField(cli, g) && g in base then attribution[g := base[g]] else attribution, base, cli,
                 fields[1..], f);
      assert f in fields <==> f == g || f in fields[1..];
    }
  }

  lemma {:induction false} RetainedMembers(conflicts: seq<Conflict>, cli: CliOverrides, c: Conflict)
    ensures c in Retained(conflicts, cli) <==> c in conflicts && !Spurious(cli, c)
    decreases |conflicts|
  {
    if conflicts == [] {
    } else {
      RetainedMembers(conflicts[1..], cli, c);
      assert c in conflicts <==> c == conflicts[0] || c in conflicts[1..];
    }
  }

  // ---------------------------------------------------------------- non-interference

  /** A flag replacing a value of the base. */
  ghost predicate FlagConflict(cli: CliOverrides, base: Merged, c: Conflict) {
    && OverridesField(cli, c.field) && c.field in base.attribution
    && c == Conflict(c.field, base.attribution[c.field], CliSource(cli))
  }

  /** The values, sources and conflicts of `merged` against those of `base`. */
  ghost predicate LayeredOver(checks: CliChecks, cli: CliOverrides, base: Merged, merged: Merged) {
    && (forall f :: Get(merged.effective, f) == Wanted(checks, cli, base.effective, f))
    && merged.effective.window.blurRadius == base.effective.window.blurRadius
    && (forall f :: SourceAfter(cli, base, merged, f))
    && (forall c :: c in merged.conflicts && c !in base.conflicts ==> FlagConflict(cli, base, c))
    && (forall c :: c in base.conflicts && !Spurious(cli, c) ==> c in merged.conflicts)
  }

  ghost predicate SourceAfter(cli: CliOverrides, base: Merged, merged: Merged, f: Field) {
    && f in base.attribution && f in merged.attribution
    && merged.attribution[f] == if OwnedByCli(cli, f) then CliSource(cli) else base.attribution[f]
  }

  /** `plan` says what is wanted of `base` at field `f`. */
  ghost predicate FitsAt(checks: CliChecks, cli: CliOverrides, base: Effective, plan: Plan, f: Field) {
    && (if Declares(plan, f) then Said(plan, f) == Wanted(checks, cli, base, f)
        else Wanted(checks, cli, base, f) == Get(base, f))
    && (OwnedByCli(cli, f) ==> Declares(plan, f))
    && (Declares(plan, f) && !OwnedByCli(cli, f) ==> IsRestored(f))
  }

  ghost predicate LayerFits(checks: CliChecks, cli: CliOverrides, base: Effective, cl: Layer) {
    cl.source == CliSource(cli) && forall f :: FitsAt(checks, cli, base, cl.plan, f)
  }

  lemma CliPlanFits(checks: CliChecks, cli: CliOverrides, base: Effective, size: Option<real>,
                    opacity: Option<real>, f: Field)
    requires !NoOverride(cli)
    requires ParsedFlag(checks, cli.fontSize, "font.size") == Ok(size)
    requires ParsedFlag(checks, cli.opacity, "window.opacity") == Ok(opacity)
    ensures FitsAt(checks, cli, base, CliPlan(cli, base, size, opacity), f)
  {
    CliPlanSays(checks, cli, base, size, opacity, f);
    CliPlanOwns(checks, cli, base, size, opacity, f);
  }

  lemma PlanFits(checks: CliChecks, cli: CliOverrides, base: Effective, plan: Plan, size: Option<real>,
                 opacity: Option<real>)
    requires !NoOverride(cli) && plan == CliPlan(cli, base, size, opacity)
    requires ParsedFlag(checks, cli.fontSize, "font.size") == Ok(size)
    requires ParsedFlag(checks, cli.opacity, "window.opacity") == Ok(opacity)
    ensures forall f :: FitsAt(checks, cli, base, plan, f)
  {
    forall f ensures FitsAt(checks, cli, base, plan, f) {
      CliPlanFits(checks, cli, base, size, opacity, f);
    }
  }

  lemma CliLayerFits(checks: CliChecks, cli: CliOverrides, base: Effective)
    requires !NoOverride(cli) && ToLayerWithBase(checks, cli, base).Ok?
    ensures ToLayerWithBase(checks, cli, base).value.Some?
    ensures LayerFits(checks, cli, base, ToLayerWithBase(checks, cli, base).value.value)
  {
    CliPlanIs(checks, cli, base);
    PlanFits(checks, cli, base, ToLayerWithBase(checks, cli, base).value.value.plan,
             ParsedFlag(checks, cli.fontSize, "font.size").value,
             ParsedFlag(checks, cli.opacity, "window.opacity").value);
  }

  /** What the second merge, the restore loop and the pruning give together. */
  lemma LayeredFields(checks: CliChecks, cli: CliOverrides, order: seq<Field>, restored: seq<Field>, m: Merging,
                      cl: Layer, base: Merged, merged: Merged)
    requires Canonical(order) && forall f :: f in restored <==> IsRestored(f)
    requires LayerFits(checks, cli, m.effective, cl)
    requires base == Merged(m.effective, Backfill(m.attribution), m.conflicts)
    requires MergeFields(m, cl, order).violations == []
    requires merged.effective == MergeFields(m, cl, order).effective
    requires merged.attribution
          == Restored(Backfill(MergeFields(m, cl, order).attribution), base.attribution, cli, restored)
    ensures forall f :: Get(merged.effective, f) == Wanted(checks, cli, base.effective, f)
    ensures merged.effective.window.blurRadius == base.effective.window.blurRadius
    ensures forall f :: SourceAfter(cli, base, merged, f)
  {
    var r := MergeFields(m, cl, order);
    MergeLayerDoes(m, cl, order);
    forall f ensures Get(merged.effective, f) == Wanted(checks, cli, base.effective, f)
                     && SourceAfter(cli, base, merged, f) {
      assert MergedAt(m, cl, f, r) && FitsAt(checks, cli, m.effective, cl.plan, f);
      RestoredAt(Backfill(r.attribution), base.attribution, cli, restored, f);
    }
  }

  lemma LayeredConflicts(checks: CliChecks, cli: CliOverrides, order: seq<Field>, m: Merging, cl: Layer, base: Merged,
                         conflicts: seq<Conflict>)
    requires Canonical(order) && LayerFits(checks, cli, m.effective, cl)
    requires base == Merged(m.effective, Backfill(m.attribution), m.conflicts)
    requires MergeFields(m, cl, order).violations == []
    requires conflicts == Retained(MergeFields(m, cl, order).conflicts, cli)
    ensures forall c :: c in conflicts ==> !Spurious(cli, c)
    ensures forall c :: c in conflicts && c !in base.conflicts ==> FlagConflict(cli, base, c)
    ensures forall c :: c in base.conflicts && !Spurious(cli, c) ==> c in conflicts
    ensures forall f :: OverridesField(cli, f) && f in m.attribution
              ==> Conflict(f, base.attribution[f], CliSource(cli)) in conflicts
  {
    MergeLayerDoes(m, cl, order);
    forall c ensures c in conflicts <==> c in MergeFields(m, cl, order).conflicts && !Spurious(cli, c) {
      RetainedMembers(MergeFields(m, cl, order).conflicts, cli, c);
    }
    forall f | OverridesField(cli, f) && f in m.attribution
      ensures Conflict(f, base.attribution[f], CliSource(cli)) in conflicts {
      var c := Conflict(f, m.attribution[f], cl.source);
      assert FitsAt(checks, cli, m.effective, cl.plan, f);
      assert ConflictAt(m, cl, c.field) == [c];
    }
  }

  lemma FastPath(checks: CliChecks, cli: CliOverrides, base: Merged)
    requires NoOverride(cli) && forall f :: f in base.attribution
    ensures LayeredOver(checks, cli, base, base)
  {
  }

  lemma LayeredWithFlags(checks: CliChecks, order: seq<Field>, restored: seq<Field>, lower: seq<Layer>,
                         cli: CliOverrides, validate: bool, f: Field)
    requires Canonical(order) && forall f :: f in restored <==> IsRestored(f)
    requires !NoOverride(cli) && LayeredIn(checks, order, restored, lower, cli, validate).Ok?
    ensures MergeInOrder(checks.merge, order, lower, validate).Ok?
    ensures var base := MergeInOrder(checks.merge, order, lower, validate).value;
            var merged := LayeredIn(checks, order, restored, lower, cli, validate).value;
            && LayeredOver(checks, cli, base, merged)
            && NoneSpurious(cli, merged.conflicts)
            && (OverridesField(cli, f) && (exists l :: l in lower && Declares(l.plan, f))
                ==> Conflict(f, base.attribution[f], CliSource(cli)) in merged.conflicts)
  {
    var base := MergeInOrder(checks.merge, order, lower, validate).value;
    var merged := LayeredIn(checks, order, restored, lower, cli, validate).value;
    var m := MergeAll(checks.merge.defaults, order, SortLayers(lower));
    CliLayerFits(checks, cli, base.effective);
    var cl := ToLayerWithBase(checks, cli, base.effective).value.value;
    SecondMerge(checks.merge, order, lower, cl, validate);
    LayeredFields(checks, cli, order, restored, m, cl, base, merged);
    LayeredConflicts(checks, cli, order, m, cl, base, merged.conflicts);
    DeclaredIsAttributed(checks.merge.defaults, order, lower, f);
  }

  lemma DeclaredIsAttributed(defaults: Effective, order: seq<Field>, layers: seq<Layer>, f: Field)
    requires Canonical(order) && MergeAll(defaults, order, SortLayers(layers)).violations == []
    ensures f in MergeAll(defaults, order, SortLayers(layers)).attribution
       <==> exists l :: l in layers && Declares(l.plan, f)
  {
    MergeAllAt(defaults, order, SortLayers(layers), f);
    SortedWinner(layers, f);
    WinnerDeclares(layers, f);
  }

  /** CLI flags do not interfere: each overridden field has the CLI's value and
      source and every other field keeps the base merge's value and source; the
      exceptions are the schema version and the tables a flag touches, which
      become the CLI's. Without a flag the base merge itself comes back. */
  lemma CliDoesNotInterfere(checks: CliChecks, lower: seq<Layer>, cli: CliOverrides, validate: bool)
    requires Layered(checks, lower, cli, validate).Ok?
    ensures MergeResult(checks.merge, lower, validate).Ok?
    ensures LayeredOver(checks, cli, MergeResult(checks.merge, lower, validate).value,
                        Layered(checks, lower, cli, validate).value)
    ensures NoOverride(cli) ==> Layered(checks, lower, cli, validate) == MergeResult(checks.merge, lower, validate)
    ensures !NoOverride(cli) ==> NoneSpurious(cli, Layered(checks, lower, cli, validate).value.conflicts)
  {
    if NoOverride(cli) {
      FastPath(checks, cli, MergeResult(checks.merge, lower, validate).value);
    } else {
      OrderCanonical();
      RestoredCanonical();
      LayeredWithFlags(checks, MERGE_ORDER, RESTORED, lower, cli, validate, Theme);
    }
  }

  lemma RestoredCanonical()
    ensures forall f :: f in RESTORED <==> IsRestored(f)
  {
    forall f ensures f in RESTORED <==> IsRestored(f) {
      RestoredListed(f);
    }
  }

  /** A flag that replaces something a lower layer declared is reported as a
      conflict with the layer it took the field from. */
  lemma OverrideIsReported(checks: CliChecks, lower: seq<Layer>, cli: CliOverrides, validate: bool, f: Field, l: Layer)
    requires Layered(checks, lower, cli, validate).Ok?
    requires OverridesField(cli, f) && l in lower && Declares(l.plan, f)
    ensures MergeResult(checks.merge, lower, validate).Ok?
    ensures Conflict(f, MergeResult(checks.merge, lower, validate).value.attribution[f], CliSource(cli))
         in Layered(checks, lower, cli, validate).value.conflicts
  {
    OrderCanonical();
    RestoredCanonical();
    LayeredWithFlags(checks, MERGE_ORDER, RESTORED, lower, cli, validate, f);
  }

  lemma BaseConflictsAreLower(checks: Checks, order: seq<Field>, lower: seq<Layer>, validate: bool)
    requires Canonical(order) && MergeInOrder(checks, order, lower, validate).Ok?
    requires forall l :: l in lower ==> l.source.kind != Cli
    ensures forall c :: c in MergeInOrder(checks, order, lower, validate).value.conflicts ==> c.newSource.kind != Cli
  {
    forall c | c in MergeInOrder(checks, order, lower, validate).value.conflicts ensures c.newSource.kind != Cli {
      ConflictsNameLayers(checks.defaults, order, SortLayers(lower), c);
      SortMembers(LayerLe, lower);
    }
  }

  /** With profile and file layers below, flags or none, no recorded conflict
      names the CLI for a field it did not override. */
  lemma ConflictsNameOnlyFlags(checks: CliChecks, lower: seq<Layer>, cli: CliOverrides, validate: bool)
    requires Layered(checks, lower, cli, validate).Ok?
    requires forall l :: l in lower ==> l.source.kind != Cli
    ensures NoneSpurious(cli, Layered(checks, lower, cli, validate).value.conflicts)
  {
    CliDoesNotInterfere(checks, lower, cli, validate);
    OrderCanonical();
    BaseConflictsAreLower(checks.merge, MERGE_ORDER, lower, validate);
  }

  // ---------------------------------------------------------------- which flags are refused

  datatype Flag = ThemeFlag | FamilyFlag | SizeFlag | OpacityFlag

  function RawOf(cli: CliOverrides, flag: Flag): Option<string> {
    match flag
    case ThemeFlag => cli.theme
    case FamilyFlag => cli.fontFamily
    case SizeFlag => cli.fontSize
    case OpacityFlag => cli.opacity
  }

  function NameOf(flag: Flag): string {
    match flag
    case ThemeFlag => "--theme"
    case FamilyFlag => "--font-family"
    case SizeFlag => "--font-size"
    case OpacityFlag => "--opacity"
  }

  /** The order the flags are checked and named in. */
  function FlagRank(flag: Flag): nat {
    match flag
    case ThemeFlag => 0
    case FamilyFlag => 1
    case SizeFlag => 2
    case OpacityFlag => 3
  }

  /** A flag is given when its value is more than blanks, and then stands for the
      value without the blanks around it. */
  ghost predicate Given(cli: CliOverrides, flag: Flag, value: string) {
    && RawOf(cli, flag).Some? && value != [] && Trimmed(Rust, value)
    && exists pre, post :: AllSpace(Rust, pre) && AllSpace(Rust, post) && RawOf(cli, flag).value == pre + value + post
  }

  lemma PresentIsGiven(cli: CliOverrides, flag: Flag, value: string)
    ensures CliPresent(RawOf(cli, flag)) == Some(value) <==> Given(cli, flag, value)
  {
    var raw := RawOf(cli, flag);
    if CliPresent(raw) == Some(value) {
      var pre, post := TrimShape(Rust, raw.value);
      TrimIdempotent(Rust, raw.value);
    }
    if Given(cli, flag, value) {
      var pre, post :| AllSpace(Rust, pre) && AllSpace(Rust, post) && raw.value == pre + value + post;
      TrimUnique(Rust, pre, value, post);
    }
  }

  /** The flag's value fails its own check: the theme's and the probes' range
      checks, the length bound of a family, a number that does not parse. */
  ghost predicate BadFlag(checks: CliChecks, cli: CliOverrides, flag: Flag, at: string) {
    exists value :: Given(cli, flag, value) && BadValue(checks, flag, value, at)
  }

  predicate BadValue(checks: CliChecks, flag: Flag, value: string, at: string) {
    match flag
    case ThemeFlag => checks.theme(value) == Some(at)
    case FamilyFlag => ByteLen(value) > 128 && at == "font.family"
    case SizeFlag =>
      var size := checks.parseFloat(value);
      if size.None? then at == "font.size" else checks.font(ProbeFont(checks, size.value)) == Some(at)
    case OpacityFlag =>
      var opacity := checks.parseFloat(value);
      if opacity.None? then at == "window.opacity" else checks.window(ProbeWindow(checks, opacity.value)) == Some(at)
  }

  /** `flag` is the first bad one, in checking order. */
  ghost predicate FirstBadFlag(checks: CliChecks, cli: CliOverrides, flag: Flag, at: string) {
    && BadFlag(checks, cli, flag, at)
    && forall f, x :: FlagRank(f) < FlagRank(flag) ==> !BadFlag(checks, cli, f, x)
  }

  ghost predicate NoBadFlag(checks: CliChecks, cli: CliOverrides) {
    forall flag, at :: !BadFlag(checks, cli, flag, at)
  }

  /** `BadFlag`, read off the flag's present value. */
  predicate BadPresent(checks: CliChecks, cli: CliOverrides, flag: Flag, at: string) {
    CliPresent(RawOf(cli, flag)).Some? && BadValue(checks, flag, CliPresent(RawOf(cli, flag)).value, at)
  }

  lemma BadIsPresent(checks: CliChecks, cli: CliOverrides, flag: Flag, at: string)
    ensures BadFlag(checks, cli, flag, at) <==> BadPresent(checks, cli, flag, at)
  {
    if BadPresent(checks, cli, flag, at) {
      PresentIsGiven(cli, flag, CliPresent(RawOf(cli, flag)).value);
    }
    if value :| Given(cli, flag, value) && BadValue(checks, flag, value, at) {
      PresentIsGiven(cli, flag, value);
    }
  }

  /** The error of one flag, if it has one. */
  function FlagError(checks: CliChecks, cli: CliOverrides, flag: Flag): Option<string> {
    var value := CliPresent(RawOf(cli, flag));
    if value.None? then None
    else
      match flag
      case ThemeFlag => checks.theme(value.value)
      case FamilyFlag => if ByteLen(value.value) > MAX_FONT_FAMILY_LEN then Some("font.family") else None
      case SizeFlag =>
        var size := checks.parseFloat(value.value);
        if size.None? then Some("font.size") else checks.font(ProbeFont(checks, size.value))
      case OpacityFlag =>
        var opacity := checks.parseFloat(value.value);
        if opacity.None? then Some("window.opacity") else checks.window(ProbeWindow(checks, opacity.value))
  }

  lemma FlagErrorIs(checks: CliChecks, cli: CliOverrides, flag: Flag, at: string)
    ensures FlagError(checks, cli, flag) == Some(at) <==> BadFlag(checks, cli, flag, at)
  {
    BadIsPresent(checks, cli, flag, at);
  }

  function OrErr(a: Option<string>, b: Option<Error>): Option<Error> { if a.Some? then Some(Invalid(a.value)) else b }

  lemma ViolationInOrder(checks: CliChecks, cli: CliOverrides)
    ensures FlagViolation(checks, cli)
         == OrErr(FlagError(checks, cli, ThemeFlag), OrErr(FlagError(checks, cli, FamilyFlag),
              OrErr(FlagError(checks, cli, SizeFlag), OrErr(FlagError(checks, cli, OpacityFlag), None))))
  {
  }

  lemma FirstBadIs(checks: CliChecks, cli: CliOverrides, flag: Flag, at: string)
    ensures FirstBadFlag(checks, cli, flag, at)
       <==> FlagError(checks, cli, flag) == Some(at)
            && forall f :: FlagRank(f) < FlagRank(flag) ==> FlagError(checks, cli, f).None?
  {
    forall f, x ensures FlagError(checks, cli, f) == Some(x) <==> BadFlag(checks, cli, f, x) {
      FlagErrorIs(checks, cli, f, x);
    }
    forall f | FlagError(checks, cli, f).Some? ensures exists x :: BadFlag(checks, cli, f, x) {
      assert BadFlag(checks, cli, f, FlagError(checks, cli, f).value);
    }
  }

  lemma NoBadFlagIs(checks: CliChecks, cli: CliOverrides)
    ensures NoBadFlag(checks, cli) <==> forall f :: FlagError(checks, cli, f).None?
  {
    forall f, x ensures FlagError(checks, cli, f) == Some(x) <==> BadFlag(checks, cli, f, x) {
      FlagErrorIs(checks, cli, f, x);
    }
    forall f | FlagError(checks, cli, f).Some? ensures !NoBadFlag(checks, cli) {
      assert BadFlag(checks, cli, f, FlagError(checks, cli, f).value);
    }
  }

  /** The first flag with an error of its own. */
  function FirstError(checks: CliChecks, cli: CliOverrides): Option<Flag> {
    if FlagError(checks, cli, ThemeFlag).Some? then Some(ThemeFlag)
    else if FlagError(checks, cli, FamilyFlag).Some? then Some(FamilyFlag)
    else if FlagError(checks, cli, SizeFlag).Some? then Some(SizeFlag)
    else if FlagError(checks, cli, OpacityFlag).Some? then Some(OpacityFlag)
    else None
  }

  lemma FirstErrorIsFirst(checks: CliChecks, cli: CliOverrides, flag: Flag)
    ensures FirstError(checks, cli) == Some(flag)
       <==> FlagError(checks, cli, flag).Some?
            && forall f :: FlagRank(f) < FlagRank(flag) ==> FlagError(checks, cli, f).None?
  {
    match flag
    case ThemeFlag =>
    case FamilyFlag => assert FlagRank(ThemeFlag) < FlagRank(flag);
    case SizeFlag => assert FlagRank(ThemeFlag) < FlagRank(flag) && FlagRank(FamilyFlag) < FlagRank(flag);
    case OpacityFlag =>
      assert FlagRank(ThemeFlag) < FlagRank(flag) && FlagRank(FamilyFlag) < FlagRank(flag);
      assert FlagRank(SizeFlag) < FlagRank(flag);
  }

  lemma ViolationIsFirst(checks: CliChecks, cli: CliOverrides)
    ensures var flag := FirstError(checks, cli);
            if flag.Some? then FlagViolation(checks, cli) == Some(Invalid(FlagError(checks, cli, flag.value).value))
            else FlagViolation(checks, cli).None? && forall f :: FlagError(checks, cli, f).None?
  {
    ViolationInOrder(checks, cli);
  }

  /** The flags are refused exactly when some given value fails its own check,
      with the error of the first such flag. */
  lemma BadFlagsExactly(checks: CliChecks, cli: CliOverrides, at: string)
    ensures FlagViolation(checks, cli) == Some(Invalid(at)) <==> exists flag :: FirstBadFlag(checks, cli, flag, at)
    ensures FlagViolation(checks, cli).None? <==> NoBadFlag(checks, cli)
  {
    ViolationIsFirst(checks, cli);
    NoBadFlagIs(checks, cli);
    forall flag ensures FirstBadFlag(checks, cli, flag, at)
                   <==> FirstError(checks, cli) == Some(flag) && FlagError(checks, cli, flag) == Some(at) {
      FirstBadIs(checks, cli, flag, at);
      FirstErrorIsFirst(checks, cli, flag);
    }
    if FirstError(checks, cli).Some? && FlagViolation(checks, cli) == Some(Invalid(at)) {
      assert FirstBadFlag(checks, cli, FirstError(checks, cli).value, at);
    }
  }

  // ---------------------------------------------------------------- when layering succeeds

  /** The number a flag asks for. */
  function Asked(checks: CliChecks, raw: Option<string>): Option<real> {
    if CliPresent(raw).Some? then checks.parseFloat(CliPresent(raw).value) else None
  }

  function AskedPlan(checks: CliChecks, cli: CliOverrides, base: Effective): Plan {
    CliPlan(cli, base, Asked(checks, cli.fontSize), Asked(checks, cli.opacity))
  }

  /** The tables made of flags and base values pass their range checks. */
  predicate TablesValid(checks: CliChecks, plan: Plan) {
    && (plan.font.Some? ==> checks.font(plan.font.value).None?)
    && (plan.window.Some? ==> checks.window(plan.window.value).None?)
    && checks.merge.plan(plan).None?
  }

  lemma CliLayerExactly(checks: CliChecks, cli: CliOverrides, base: Effective)
    requires !NoOverride(cli)
    ensures ToLayerWithBase(checks, cli, base).Ok? <==>
              FlagViolation(checks, cli).None? && TablesValid(checks, AskedPlan(checks, cli, base))
    ensures ToLayerWithBase(checks, cli, base).Ok? ==>
              ToLayerWithBase(checks, cli, base).value == Some(Layer(CliSource(cli), AskedPlan(checks, cli, base)))
  {
  }

  /** Layering succeeds exactly when the base merge does and, with a flag given,
      no flag is bad, the CLI's tables are valid and the merge with the CLI layer
      on top of the base layers succeeds; its values are that merge's. */
  lemma LayeringSucceedsExactly(checks: CliChecks, lower: seq<Layer>, cli: CliOverrides, validate: bool)
    ensures var base := MergeResult(checks.merge, lower, validate);
            var r := Layered(checks, lower, cli, validate);
            if base.Err? || NoOverride(cli) then r == base
            else
              var plan := AskedPlan(checks, cli, base.value.effective);
              var over := MergeResult(checks.merge, lower + [Layer(CliSource(cli), plan)], validate);
              && (r.Ok? <==> NoBadFlag(checks, cli) && TablesValid(checks, plan) && over.Ok?)
              && (r.Ok? ==> r.value.effective == over.value.effective)
  {
    var base := MergeResult(checks.merge, lower, validate);
    if base.Ok? && !NoOverride(cli) {
      CliLayerExactly(checks, cli, base.value.effective);
      BadFlagsExactly(checks, cli, "");
    }
  }

  /** Over a base that merges, the first bad flag is the error. */
  lemma BadFlagIsRefused(checks: CliChecks, lower: seq<Layer>, cli: CliOverrides, validate: bool, flag: Flag,
                         at: string)
    requires MergeResult(checks.merge, lower, validate).Ok? && FirstBadFlag(checks, cli, flag, at)
    ensures Layered(checks, lower, cli, validate) == Err(Invalid(at))
  {
    BadIsPresent(checks, cli, flag, at);
    BadFlagsExactly(checks, cli, at);
  }

  // ---------------------------------------------------------------- what the CLI source says

  ghost predicate IsGiven(cli: CliOverrides, flag: Flag) { exists value :: Given(cli, flag, value) }

  /** The given flags, in checking order, each once. */
  ghost predicate ListsGiven(cli: CliOverrides, flags: seq<Flag>) {
    && (forall flag :: flag in flags <==> IsGiven(cli, flag))
    && (forall i, j :: 0 <= i < j < |flags| ==> FlagRank(flags[i]) < FlagRank(flags[j]))
  }

  function ListedIf(given: bool, flag: Flag): seq<Flag> { if given then [flag] else [] }

  function GivenFlags(theme: bool, family: bool, size: bool, opacity: bool): seq<Flag> {
    ListedIf(theme, ThemeFlag) + ListedIf(family, FamilyFlag) + ListedIf(size, SizeFlag)
    + ListedIf(opacity, OpacityFlag)
  }

  lemma FlagsAreNames(theme: bool, family: bool, size: bool, opacity: bool)
    ensures Map(NameOf, GivenFlags(theme, family, size, opacity))
         == (if theme then ["--theme"] else []) + (if family then ["--font-family"] else [])
            + (if size then ["--font-size"] else []) + (if opacity then ["--opacity"] else [])
  {
    var a, b, c, d := ListedIf(theme, ThemeFlag), ListedIf(family, FamilyFlag), ListedIf(size, SizeFlag),
                      ListedIf(opacity, OpacityFlag);
    MapConcat(NameOf, a, b);
    MapConcat(NameOf, a + b, c);
    MapConcat(NameOf, a + b + c, d);
  }

  ghost predicate InFlagOrder(flags: seq<Flag>, below: nat) {
    && (forall i :: 0 <= i < |flags| ==> FlagRank(flags[i]) < below)
    && (forall i, j :: 0 <= i < j < |flags| ==> FlagRank(flags[i]) < FlagRank(flags[j]))
  }

  lemma ListedNext(flags: seq<Flag>, given: bool, flag: Flag)
    requires InFlagOrder(flags, FlagRank(flag))
    ensures InFlagOrder(flags + ListedIf(given, flag), FlagRank(flag) + 1)
    ensures forall f :: f in flags + ListedIf(given, flag) <==> f in flags || (given && f == flag)
  {
  }

  lemma GivenInOrder(theme: bool, family: bool, size: bool, opacity: bool)
    ensures InFlagOrder(GivenFlags(theme, family, size, opacity), 4)
    ensures forall f :: f in GivenFlags(theme, family, size, opacity) <==> Chosen(theme, family, size, opacity, f)
  {
    var a := ListedIf(theme, ThemeFlag);
    ListedThrice(a, family, size, opacity);
  }

  lemma ListedThrice(a: seq<Flag>, family: bool, size: bool, opacity: bool)
    requires InFlagOrder(a, 1)
    ensures var flags := a + ListedIf(family, FamilyFlag) + ListedIf(size, SizeFlag) + ListedIf(opacity, OpacityFlag);
            && InFlagOrder(flags, 4)
            && forall f :: f in flags <==> f in a || (f.FamilyFlag? && family) || (f.SizeFlag? && size)
                                           || (f.OpacityFlag? && opacity)
  {
    var b := a + ListedIf(family, FamilyFlag);
    ListedNext(a, family, FamilyFlag);
    ListedNext(b, size, SizeFlag);
    ListedNext(b + ListedIf(size, SizeFlag), opacity, OpacityFlag);
  }

  predicate Chosen(theme: bool, family: bool, size: bool, opacity: bool, flag: Flag) {
    match flag
    case ThemeFlag => theme
    case FamilyFlag => family
    case SizeFlag => size
    case OpacityFlag => opacity
  }

  lemma GivenIsPresent(cli: CliOverrides, flag: Flag)
    ensures IsGiven(cli, flag) <==> CliPresent(RawOf(cli, flag)).Some?
  {
    if CliPresent(RawOf(cli, flag)).Some? {
      PresentIsGiven(cli, flag, CliPresent(RawOf(cli, flag)).value);
    }
    if value :| Given(cli, flag, value) {
      PresentIsGiven(cli, flag, value);
    }
  }

  lemma GivenAreListed(cli: CliOverrides, flags: seq<Flag>)
    requires forall f :: f in flags <==> CliPresent(RawOf(cli, f)).Some?
    requires InFlagOrder(flags, 4)
    ensures ListsGiven(cli, flags) && (flags == [] <==> NoOverride(cli))
  {
    forall flag ensures flag in flags <==> IsGiven(cli, flag) {
      GivenIsPresent(cli, flag);
    }
    NoMembers(flags);
    assert ThemeFlag in flags <==> CliPresent(cli.theme).Some?;
    assert FamilyFlag in flags <==> CliPresent(cli.fontFamily).Some?;
    assert SizeFlag in flags <==> CliPresent(cli.fontSize).Some?;
    assert OpacityFlag in flags <==> CliPresent(cli.opacity).Some?;
  }

  function GivenOf(cli: CliOverrides): seq<Flag> {
    GivenFlags(CliPresent(cli.theme).Some?, CliPresent(cli.fontFamily).Some?, CliPresent(cli.fontSize).Some?,
               CliPresent(cli.opacity).Some?)
  }

  lemma NamesOfGiven(cli: CliOverrides)
    ensures Map(NameOf, GivenOf(cli)) == Flags(cli)
  {
    FlagsAreNames(CliPresent(cli.theme).Some?, CliPresent(cli.fontFamily).Some?, CliPresent(cli.fontSize).Some?,
                  CliPresent(cli.opacity).Some?);
  }

  /** The CLI source names exactly the given flags, in order and each once. */
  lemma SourceNamesFlags(cli: CliOverrides) returns (flags: seq<Flag>)
    ensures ListsGiven(cli, flags) && (flags == [] <==> NoOverride(cli))
    ensures flags != [] ==> CliSource(cli).path == Some("cli:" + Join(Map(NameOf, flags), ','))
  {
    flags := GivenOf(cli);
    GivenInOrder(CliPresent(cli.theme).Some?, CliPresent(cli.fontFamily).Some?, CliPresent(cli.fontSize).Some?,
                 CliPresent(cli.opacity).Some?);
    GivenAreListed(cli, flags);
    NamesOfGiven(cli);
    SomeFlagNamed(flags);
  }

  lemma SomeFlagNamed(flags: seq<Flag>)
    ensures flags != [] ==> Map(NameOf, flags) != []
  {
  }
}
