/** Startup salvage (crates/bitty-config/src/file.rs): retry plan construction,
    dropping one invalid top-level element at a time. */
module Salvage {
  import opened Wrappers
  import opened Ordering
  import Chords

  const MAX_SALVAGE_DROPS: nat := 32

  /** The raw top-level keys of one configuration layer. */
  datatype RawField =
    | RawAppearanceTheme | RawTheme | RawColors | RawAnimations | RawStyle
    | RawFont | RawWindow | RawTerminal | RawSelection | RawHistory | RawLayout | RawWorkspace
    | RawChrome | RawDecoration | RawViews | RawScrollbar | RawMouse | RawModKey | RawLeaderKey
    | RawLeaderTimeout | RawInput | RawHints | RawSession | RawCloseConfirm | RawKeymaps
    | RawPlugins | RawPanelRules

  /** The units salvage can drop. */
  datatype Element =
    | Appearance | Animations | AppearanceColors | AppearanceStyle | AppearanceTheme
    | Font | Window | Terminal | Selection | History | Layout | Workspace
    | Chrome | Decoration | Views | Scrollbar | Mouse | ModKey | LeaderKey
    | LeaderTimeout | Input | Hints | Session | CloseConfirm | Keymaps
    | Plugins | PanelRules

  type Fields = map<RawField, string>

  function FieldsOf(e: Element): set<RawField> {
    match e
    case Appearance => {RawAppearanceTheme, RawTheme, RawColors, RawAnimations, RawStyle}
    case AppearanceTheme => {RawAppearanceTheme, RawTheme}
    case _ => {FieldOf(e)}
  }

  /** The raw key of an element that has just one (and the canonical one of the
      theme). */
  function FieldOf(e: Element): RawField {
    match e
    case Appearance => RawAppearanceTheme
    case AppearanceTheme => RawAppearanceTheme
    case Animations => RawAnimations
    case AppearanceColors => RawColors
    case AppearanceStyle => RawStyle
    case Font => RawFont
    case Window => RawWindow
    case Terminal => RawTerminal
    case Selection => RawSelection
    case History => RawHistory
    case Layout => RawLayout
    case Workspace => RawWorkspace
    case Chrome => RawChrome
    case Decoration => RawDecoration
    case Views => RawViews
    case Scrollbar => RawScrollbar
    case Mouse => RawMouse
    case ModKey => RawModKey
    case LeaderKey => RawLeaderKey
    case LeaderTimeout => RawLeaderTimeout
    case Input => RawInput
    case Hints => RawHints
    case Session => RawSession
    case CloseConfirm => RawCloseConfirm
    case Keymaps => RawKeymaps
    case Plugins => RawPlugins
    case PanelRules => RawPanelRules
  }

  predicate Present(fields: Fields, e: Element) {
    exists f :: f in FieldsOf(e) && f in fields
  }

  function Drop(fields: Fields, e: Element): Fields { fields - FieldsOf(e) }

  // ---------------------------------------------------------------- charging an error

  /** A validation error with the dotted path it blames, if any. */
  datatype ConfigError = ConfigError(field: Option<string>, message: string)

  /** The first '.'- or '['-delimited piece. */
  function Head(field: string): string {
    if field == [] || field[0] == '.' || field[0] == '[' then [] else [field[0]] + Head(field[1..])
  }

  function ElementOfHead(head: string): Option<Element> {
    if head == "appearance" then Some(Appearance)
    else if head == "font" then Some(Font)
    else if head == "window" then Some(Window)
    else if head == "terminal" then Some(Terminal)
    else if head == "selection" then Some(Selection)
    else if head == "history" then Some(History)
    else if head == "layout" then Some(Layout)
    else if head == "workspace" then Some(Workspace)
    else if head == "chrome" then Some(Chrome)
    else if head == "decoration" then Some(Decoration)
    else if head == "views" then Some(Views)
    else if head == "scrollbar" then Some(Scrollbar)
    else if head == "mouse" then Some(Mouse)
    else if head == "mod_key" then Some(ModKey)
    else if head == "leader_key" then Some(LeaderKey)
    else if head == "leader_timeout_ms" then Some(LeaderTimeout)
    else if head == "input" then Some(Input)
    else if head == "hints_enabled" then Some(Hints)
    else if head == "session" then Some(Session)
    else if head == "close_confirm" then Some(CloseConfirm)
    else if head == "keymaps" then Some(Keymaps)
    else if head == "plugins" then Some(Plugins)
    else if head == "panel_rules" then Some(PanelRules)
    else None
  }

  /** `salvageable_element`. */
  function SalvageableElement(err: ConfigError): Option<Element> {
    match err.field
    case None => None
    case Some(field) => ElementOfPath(field)
  }

  function ElementOfPath(field: string): Option<Element> {
    if "appearance.animations" <= field then Some(Animations)
    else if "appearance.colors" <= field then Some(AppearanceColors)
    else if "appearance.style" <= field then Some(AppearanceStyle)
    else if field == "theme" || "appearance.theme" <= field then Some(AppearanceTheme)
    else ElementOfHead(Head(field))
  }

  /** The user-facing path of a dropped element. */
  function Label(e: Element): string {
    match e
    case Appearance => "appearance"
    case Animations => "appearance.animations"
    case AppearanceColors => "appearance.colors"
    case AppearanceStyle => "appearance.style"
    case AppearanceTheme => "appearance.theme"
    case Font => "font"
    case Window => "window"
    case Terminal => "terminal"
    case Selection => "selection"
    case History => "history"
    case Layout => "layout"
    case Workspace => "workspace"
    case Chrome => "chrome"
    case Decoration => "decoration"
    case Views => "views"
    case Scrollbar => "scrollbar"
    case Mouse => "mouse"
    case ModKey => "mod_key"
    case LeaderKey => "leader_key"
    case LeaderTimeout => "leader_timeout_ms"
    case Input => "input"
    case Hints => "hints_enabled"
    case Session => "session"
    case CloseConfirm => "close_confirm"
    case Keymaps => "keymaps"
    case Plugins => "plugins"
    case PanelRules => "panel_rules"
  }

  // ---------------------------------------------------------------- the loop

  datatype Policy = Strict | Startup

  datatype Diagnostic = Diagnostic(element: Element, path: string, message: string)

  datatype Salvaged<P> = Salvaged(plan: P, diagnostics: seq<Diagnostic>)

  class ConfigData {
    var fields: Fields

    constructor (raw: Fields)
      ensures fields == raw
    {
      fields := raw;
    }

    method Take(f: RawField) returns (was: bool)
      modifies this
      ensures fields == old(fields) - {f} && was == (f in old(fields))
    {
      was := f in fields;
      fields := fields - {f};
    }

    /** `drop_element`: whether anything was there to drop. */
    method DropElement(e: Element) returns (dropped: bool)
      modifies this
      ensures fields == Drop(old(fields), e)
      ensures dropped == Present(old(fields), e)
    {
      dropped := Take(FieldOf(e));
      if e == Appearance || e == AppearanceTheme {
        var alias := Take(RawTheme);
        dropped := dropped || alias;
      }
      if e == Appearance {
        var colors := Take(RawColors);
        var animations := Take(RawAnimations);
        var style := Take(RawStyle);
        dropped := dropped || colors || animations || style;
      }
      DropIsTakes(old(fields), e);
    }
  }

  lemma DropIsTakes(fields: Fields, e: Element)
    ensures e == Appearance ==>
              Drop(fields, e)
              == fields - {RawAppearanceTheme} - {RawTheme} - {RawColors} - {RawAnimations} - {RawStyle}
    ensures e == AppearanceTheme ==> Drop(fields, e) == fields - {RawAppearanceTheme} - {RawTheme}
    ensures Present(fields, e) <==>
              || FieldOf(e) in fields
              || ((e == Appearance || e == AppearanceTheme) && RawTheme in fields)
              || (e == Appearance && (RawColors in fields || RawAnimations in fields || RawStyle in fields))
  {
    assert FieldOf(e) in FieldsOf(e);
    if e == Appearance || e == AppearanceTheme {
      assert RawTheme in FieldsOf(e);
    }
    if e == Appearance {
      assert RawColors in FieldsOf(e) && RawAnimations in FieldsOf(e) && RawStyle in FieldsOf(e);
    }
  }

  function Dropped(diagnostics: seq<Diagnostic>): seq<Element> {
    seq(|diagnostics|, i requires 0 <= i < |diagnostics| => diagnostics[i].element)
  }

  function Blame(e: Element, err: ConfigError): Diagnostic { Diagnostic(e, Label(e), err.message) }

  lemma DropShrinks(fields: Fields, e: Element)
    requires Present(fields, e)
    ensures |Drop(fields, e)| < |fields|
  {
    var f :| f in FieldsOf(e) && f in fields;
    var rest := Drop(fields, e);
    assert rest.Keys < fields.Keys by {
      assert f in fields.Keys && f !in rest.Keys;
    }
    SubsetSmaller(rest.Keys, fields.Keys);
    assert |rest| == |rest.Keys| && |fields| == |fields.Keys|;
  }

  lemma {:induction false} SubsetSmaller(a: set<RawField>, b: set<RawField>)
    requires a < b
    ensures |a| < |b|
  {
    assert b == a + (b - a) && b - a != {};
  }

  /** The startup loop from any point: `fields` remain, `log` was reported. */
  function SalvageFrom<P>(fields: Fields, log: seq<Diagnostic>, build: Fields -> Result<P, ConfigError>)
    : Result<Salvaged<P>, ConfigError>
    decreases |fields|
  {
    match build(fields)
    case Ok(plan) => Ok(Salvaged(plan, log))
    case Err(err) =>
      match SalvageableElement(err)
      case None => Err(err)
      case Some(e) =>
        if e in Dropped(log) || |log| >= MAX_SALVAGE_DROPS || !Present(fields, e) then Err(err)
        else
          DropShrinks(fields, e);
          SalvageFrom(Drop(fields, e), log + [Blame(e, err)], build)
  }

  function Load<P>(fields: Fields, policy: Policy, build: Fields -> Result<P, ConfigError>)
    : Result<Salvaged<P>, ConfigError>
  {
    match policy
    case Startup => SalvageFrom(fields, [], build)
    case Strict =>
      match build(fields)
      case Ok(plan) => Ok(Salvaged(plan, []))
      case Err(err) => Err(err)
  }

  /** The loop of `parse_lua_config_with_policy`, with plan construction as an
      arbitrary function of the raw fields. */
  method LoadWithPolicy<P>(data: ConfigData, policy: Policy, build: Fields -> Result<P, ConfigError>)
    returns (r: Result<Salvaged<P>, ConfigError>)
    modifies data
    ensures r == Load(old(data.fields), policy, build)
    ensures r.Ok? ==> build(data.fields) == Ok(r.value.plan)
    ensures r.Ok? ==> data.fields == DropAll(old(data.fields), Dropped(r.value.diagnostics))
  {
    var dropped: seq<Element> := [];
    var diagnostics: seq<Diagnostic> := [];
    ghost var start := data.fields;
    while true
      invariant dropped == Dropped(diagnostics)
      invariant policy == Strict ==> diagnostics == [] && data.fields == start
      invariant policy == Startup ==> Load(start, policy, build) == SalvageFrom(data.fields, diagnostics, build)
      invariant data.fields == DropAll(start, dropped)
      decreases |data.fields|
    {
      var attempt := build(data.fields);
      match attempt {
        case Ok(plan) =>
          return Ok(Salvaged(plan, diagnostics));
        case Err(err) =>
          if policy == Strict {
            return Err(err);
          }
          var element := SalvageableElement(err);
          if element == None {
            return Err(err);
          }
          var e := element.value;
          if e in dropped || |dropped| >= MAX_SALVAGE_DROPS {
            return Err(err);
          }
          ghost var before := data.fields;
          var progress := data.DropElement(e);
          if !progress {
            return Err(err);
          }
          DropShrinks(before, e);
          DropAllSnoc(start, dropped, e);
          dropped := dropped + [e];
          diagnostics := diagnostics + [Blame(e, err)];
      }
    }
  }

  // ---------------------------------------------------------------- what every run satisfies

  function DropAll(fields: Fields, dropped: seq<Element>): Fields {
    if dropped == [] then fields else Drop(DropAll(fields, dropped[..|dropped| - 1]), dropped[|dropped| - 1])
  }

  lemma DropAllSnoc(fields: Fields, dropped: seq<Element>, e: Element)
    ensures DropAll(fields, dropped + [e]) == Drop(DropAll(fields, dropped), e)
  {
    assert (dropped + [e])[..|dropped|] == dropped;
  }

  /** Dropping keeps every surviving raw value as it was, and removes exactly the
      fields of the dropped elements. */
  lemma {:induction false} SurvivorsUnchanged(fields: Fields, dropped: seq<Element>, f: RawField)
    ensures f in DropAll(fields, dropped) <==> f in fields && forall e :: e in dropped ==> f !in FieldsOf(e)
    ensures f in DropAll(fields, dropped) ==> DropAll(fields, dropped)[f] == fields[f]
  {
    if dropped == [] {
    } else {
      var init, last := dropped[..|dropped| - 1], dropped[|dropped| - 1];
      SurvivorsUnchanged(fields, init, f);
      assert dropped == init + [last];
    }
  }

  /** A state the startup loop can be in. */
  ghost predicate Reached(start: Fields, fields: Fields, log: seq<Diagnostic>) {
    && fields == DropAll(start, Dropped(log))
    && Distinct(Dropped(log))
    && (forall e :: e in Dropped(log) ==> !Present(fields, e))
  }

  lemma DroppedSnoc(log: seq<Diagnostic>, d: Diagnostic)
    ensures Dropped(log + [d]) == Dropped(log) + [d.element]
  {
  }

  /** One drop keeps the loop's invariant; what is gone stays gone. */
  lemma ReachedNext(start: Fields, fields: Fields, log: seq<Diagnostic>, e: Element, err: ConfigError)
    requires Reached(start, fields, log) && Present(fields, e)
    ensures e !in Dropped(log)
    ensures Reached(start, Drop(fields, e), log + [Blame(e, err)])
  {
    DroppedSnoc(log, Blame(e, err));
    DropAllSnoc(start, Dropped(log), e);
    forall x | x in Dropped(log) + [e] ensures !Present(Drop(fields, e), x) {
      if x in Dropped(log) {
        assert !Present(fields, x);
      }
    }
  }

  /** On success the plan was built from the input without the reported
      elements, each reported once. */
  lemma {:induction false} SalvageAccountsForAll<P>(start: Fields, fields: Fields, log: seq<Diagnostic>,
                                                    build: Fields -> Result<P, ConfigError>)
    requires Reached(start, fields, log)
    ensures var r := SalvageFrom(fields, log, build);
            r.Ok? ==>
              && Distinct(Dropped(r.value.diagnostics))
              && build(DropAll(start, Dropped(r.value.diagnostics))) == Ok(r.value.plan)
              && log <= r.value.diagnostics
    decreases |fields|
  {
    if build(fields).Err? {
      var err := build(fields).error;
      if SalvageableElement(err).Some? && Present(fields, SalvageableElement(err).value) {
        var e := SalvageableElement(err).value;
        ReachedNext(start, fields, log, e, err);
        if |log| < MAX_SALVAGE_DROPS {
          DropShrinks(fields, e);
          SalvageAccountsForAll(start, Drop(fields, e), log + [Blame(e, err)], build);
        }
      }
    }
  }

  // ---------------------------------------------------------------- the cap

  /** The loop without its two guards against repetition. */
  function SalvageUncapped<P>(fields: Fields, log: seq<Diagnostic>, build: Fields -> Result<P, ConfigError>)
    : Result<Salvaged<P>, ConfigError>
    decreases |fields|
  {
    match build(fields)
    case Ok(plan) => Ok(Salvaged(plan, log))
    case Err(err) =>
      match SalvageableElement(err)
      case None => Err(err)
      case Some(e) =>
        if !Present(fields, e) then Err(err)
        else
          DropShrinks(fields, e);
          SalvageUncapped(Drop(fields, e), log + [Blame(e, err)], build)
  }

  /** Elements numbered below 27. */
  function Rank(e: Element): nat {
    match e
    case Appearance => 0
    case Animations => 1
    case AppearanceColors => 2
    case AppearanceStyle => 3
    case AppearanceTheme => 4
    case Font => 5
    case Window => 6
    case Terminal => 7
    case Selection => 8
    case History => 9
    case Layout => 10
    case Workspace => 11
    case Chrome => 12
    case Decoration => 13
    case Views => 14
    case Scrollbar => 15
    case Mouse => 16
    case ModKey => 17
    case LeaderKey => 18
    case LeaderTimeout => 19
    case Input => 20
    case Hints => 21
    case Session => 22
    case CloseConfirm => 23
    case Keymaps => 24
    case Plugins => 25
    case PanelRules => 26
  }

  /** Distinct elements ranked below `n` are at most `n`. */
  lemma {:induction false} FewElements(s: seq<Element>, n: nat)
    requires Distinct(s) && forall i :: 0 <= i < |s| ==> Rank(s[i]) < n
    ensures |s| <= n
    decreases n
  {
    if s == [] {
    } else {
      assert Rank(s[0]) < n;
      if k :| 0 <= k < |s| && Rank(s[k]) == n - 1 {
        var rest := s[..k] + s[k + 1..];
        FewElements(rest, n - 1);
      } else {
        FewElements(s, n - 1);
      }
    }
  }

  /** Neither guard ever decides: no element is charged twice while present, and
      27 elements never reach the cap of 32. */
  lemma {:induction false} CapNeverReached<P>(start: Fields, fields: Fields, log: seq<Diagnostic>,
                                              build: Fields -> Result<P, ConfigError>)
    requires Reached(start, fields, log)
    ensures |log| <= 27 < MAX_SALVAGE_DROPS
    ensures SalvageFrom(fields, log, build) == SalvageUncapped(fields, log, build)
    decreases |fields|
  {
    FewElements(Dropped(log), 27);
    if build(fields).Err? {
      var err := build(fields).error;
      if SalvageableElement(err).Some? && Present(fields, SalvageableElement(err).value) {
        var e := SalvageableElement(err).value;
        ReachedNext(start, fields, log, e, err);
        DropShrinks(fields, e);
        CapNeverReached(start, Drop(fields, e), log + [Blame(e, err)], build);
      }
    }
  }

  /** The strict loader yields a plan exactly when startup yields it silently. */
  lemma StrictIsSilentStartup<P>(fields: Fields, build: Fields -> Result<P, ConfigError>, plan: P)
    ensures Load(fields, Strict, build) == Ok(Salvaged(plan, [])) <==>
            Load(fields, Startup, build) == Ok(Salvaged(plan, []))
  {
    if build(fields).Err? {
      var err := build(fields).error;
      if SalvageableElement(err).Some? && Present(fields, SalvageableElement(err).value) {
        var e := SalvageableElement(err).value;
        ReachedNext(fields, fields, [], e, err);
        DropShrinks(fields, e);
        SalvageAccountsForAll(fields, Drop(fields, e), [Blame(e, err)], build);
        assert [] + [Blame(e, err)] == [Blame(e, err)];
      }
    }
  }

  // ---------------------------------------------------------------- plan construction by checks

  /** One validation of one element's raw value, and the path its error blames. */
  datatype Check = Check(element: Element, path: string, fails: string -> bool)

  /** Which `input` tables declare a leader or a timeout of their own, and so
      hide the legacy scalar. */
  datatype Aliases = Aliases(setsLeader: string -> bool, setsTimeout: string -> bool)

  /** The raw value plan construction reads for an element: for the theme, the
      table key wins over the legacy alias. */
  function ValueOf(fields: Fields, e: Element): Option<string> {
    if FieldOf(e) in fields then Some(fields[FieldOf(e)])
    else if e == AppearanceTheme && RawTheme in fields then Some(fields[RawTheme])
    else None
  }

  predicate Masked(a: Aliases, fields: Fields, e: Element) {
    RawInput in fields
    && ((e == LeaderKey && a.setsLeader(fields[RawInput])) || (e == LeaderTimeout && a.setsTimeout(fields[RawInput])))
  }

  predicate Fails(c: Check, fields: Fields) {
    ValueOf(fields, c.element).Some? && c.fails(ValueOf(fields, c.element).value)
  }

  function FirstFailure(a: Aliases, checks: seq<Check>, fields: Fields): Option<Check> {
    if checks == [] then None
    else if !Masked(a, fields, checks[0].element) && Fails(checks[0], fields) then Some(checks[0])
    else FirstFailure(a, checks[1..], fields)
  }

  /** Plan construction as an ordered list of checks; the plan is what the
      surviving fields say. */
  function BuildFrom(a: Aliases, checks: seq<Check>): Fields -> Result<Fields, ConfigError> {
    fields =>
      match FirstFailure(a, checks, fields)
      case None => Ok(fields)
      case Some(c) => Err(ConfigError(Some(c.path), "invalid"))
  }

  /** Every check blames its own element. */
  ghost predicate Charged(checks: seq<Check>) {
    forall i :: 0 <= i < |checks| ==>
      checks[i].element != Appearance && ElementOfPath(checks[i].path) == Some(checks[i].element)
  }

  /** Some check of the element rejects its value. */
  ghost predicate Faulty(checks: seq<Check>, fields: Fields, e: Element) {
    exists i :: 0 <= i < |checks| && checks[i].element == e && Fails(checks[i], fields)
  }

  lemma {:induction false} FirstFailureIs(a: Aliases, checks: seq<Check>, fields: Fields)
    ensures FirstFailure(a, checks, fields).None? <==>
              forall i :: 0 <= i < |checks| ==> Masked(a, fields, checks[i].element) || !Fails(checks[i], fields)
    ensures FirstFailure(a, checks, fields).Some? ==>
              exists i :: 0 <= i < |checks| && checks[i] == FirstFailure(a, checks, fields).value
                          && !Masked(a, fields, checks[i].element) && Fails(checks[i], fields)
  {
    if checks == [] {
    } else {
      FirstFailureIs(a, checks[1..], fields);
      assert forall i :: 0 < i < |checks| ==> checks[i] == checks[1..][i - 1];
      if FirstFailure(a, checks[1..], fields).Some? {
        var i :| 0 <= i < |checks[1..]| && checks[1..][i] == FirstFailure(a, checks[1..], fields).value
                 && !Masked(a, fields, checks[1..][i].element) && Fails(checks[1..][i], fields);
        assert checks[i + 1] == checks[1..][i];
      }
    }
  }

  /** An element not dropped still shows the value it came with. */
  lemma UntouchedValue(start: Fields, dropped: seq<Element>, e: Element)
    requires e != Appearance && e !in dropped && Appearance !in dropped
    ensures ValueOf(DropAll(start, dropped), e) == ValueOf(start, e)
  {
    SurvivorsUnchanged(start, dropped, FieldOf(e));
    SurvivorsUnchanged(start, dropped, RawTheme);
    forall x | x in dropped
      ensures FieldOf(e) !in FieldsOf(x)
      ensures e == AppearanceTheme ==> RawTheme !in FieldsOf(x)
    {
      assert x != e && x != Appearance;
      FieldsApart(e, x);
    }
  }

  lemma FieldsApart(e: Element, x: Element)
    requires e != x && e != Appearance && x != Appearance
    ensures FieldOf(e) !in FieldsOf(x)
    ensures RawTheme in FieldsOf(x) <==> x == AppearanceTheme
  {
    OwnerOfField(e, FieldOf(e));
    OwnerOfField(x, FieldOf(e));
    OwnerOfField(x, RawTheme);
    assert FieldOf(e) in FieldsOf(e);
  }

  /** The one element outside the appearance table as a whole that a raw field
      belongs to. */
  function Owner(f: RawField): Element {
    match f
    case RawAppearanceTheme => AppearanceTheme
    case RawTheme => AppearanceTheme
    case RawColors => AppearanceColors
    case RawAnimations => Animations
    case RawStyle => AppearanceStyle
    case RawFont => Font
    case RawWindow => Window
    case RawTerminal => Terminal
    case RawSelection => Selection
    case RawHistory => History
    case RawLayout => Layout
    case RawWorkspace => Workspace
    case RawChrome => Chrome
    case RawDecoration => Decoration
    case RawViews => Views
    case RawScrollbar => Scrollbar
    case RawMouse => Mouse
    case RawModKey => ModKey
    case RawLeaderKey => LeaderKey
    case RawLeaderTimeout => LeaderTimeout
    case RawInput => Input
    case RawHints => Hints
    case RawSession => Session
    case RawCloseConfirm => CloseConfirm
    case RawKeymaps => Keymaps
    case RawPlugins => Plugins
    case RawPanelRules => PanelRules
  }

  lemma OwnerOfOwn(e: Element)
    requires e != Appearance
    ensures Owner(FieldOf(e)) == e
  {
  }

  lemma OwnOfOwner(f: RawField)
    requires f != RawTheme
    ensures FieldOf(Owner(f)) == f && Owner(f) != Appearance
  {
  }

  lemma FieldsOfOne(e: Element)
    requires e != Appearance
    ensures FieldsOf(e) == if e == AppearanceTheme then {RawAppearanceTheme, RawTheme} else {FieldOf(e)}
  {
  }

  lemma OwnerOfField(e: Element, f: RawField)
    requires e != Appearance
    ensures f in FieldsOf(e) <==> e == Owner(f)
  {
    FieldsOfOne(e);
    OwnerOfOwn(e);
    if f != RawTheme {
      OwnOfOwner(f);
    }
  }

  /** Distinct elements, the whole appearance table aside, drop disjoint fields. */
  lemma FieldsDisjoint(e: Element, x: Element)
    requires e != x && e != Appearance && x != Appearance
    ensures FieldsOf(e) !! FieldsOf(x)
  {
    forall f | f in FieldsOf(e) ensures f !in FieldsOf(x) {
      OwnerOfField(e, f);
      OwnerOfField(x, f);
    }
  }

  /** What the exactness proof carries around the loop. */
  ghost predicate Justified(a: Aliases, checks: seq<Check>, start: Fields, fields: Fields, dropped: seq<Element>) {
    forall e :: e in dropped ==> e != Appearance && Faulty(checks, start, e) && !Masked(a, fields, e)
  }

  lemma MaskOnlyFades(a: Aliases, fields: Fields, e: Element, x: Element)
    requires Masked(a, Drop(fields, e), x)
    ensures Masked(a, fields, x)
  {
  }

  /** A check that fires names a present, undropped element whose own value was
      faulty from the start. */
  lemma FailureIsJustified(a: Aliases, checks: seq<Check>, start: Fields, fields: Fields, log: seq<Diagnostic>)
    requires Charged(checks) && Reached(start, fields, log)
    requires Justified(a, checks, start, fields, Dropped(log))
    requires FirstFailure(a, checks, fields).Some?
    ensures var c := FirstFailure(a, checks, fields).value;
            && ElementOfPath(c.path) == Some(c.element) && Present(fields, c.element)
            && Justified(a, checks, start, Drop(fields, c.element), Dropped(log) + [c.element])
  {
    FirstFailureIs(a, checks, fields);
    var c := FirstFailure(a, checks, fields).value;
    var i :| 0 <= i < |checks| && checks[i] == c && !Masked(a, fields, c.element) && Fails(c, fields);
    ValuePresent(fields, c.element);
    UntouchedValue(start, Dropped(log), c.element);
    assert Faulty(checks, start, c.element);
    forall e | e in Dropped(log) + [c.element] ensures !Masked(a, Drop(fields, c.element), e) {
      if Masked(a, Drop(fields, c.element), e) {
        MaskOnlyFades(a, fields, c.element, e);
      }
    }
  }

  lemma ValuePresent(fields: Fields, e: Element)
    requires ValueOf(fields, e).Some?
    ensures Present(fields, e)
  {
    if FieldOf(e) in fields {
      assert FieldOf(e) in FieldsOf(e);
    } else {
      assert RawTheme in FieldsOf(e);
    }
  }

  lemma {:induction false} ExactFrom(a: Aliases, checks: seq<Check>, start: Fields, fields: Fields,
                                     log: seq<Diagnostic>)
    returns (kept: Fields, dropped: seq<Element>)
    requires Charged(checks) && Reached(start, fields, log)
    requires Justified(a, checks, start, fields, Dropped(log))
    ensures var r := SalvageFrom(fields, log, BuildFrom(a, checks));
            r.Ok? && kept == r.value.plan && dropped == Dropped(r.value.diagnostics)
    ensures kept == DropAll(start, dropped) && FirstFailure(a, checks, kept).None?
    ensures Justified(a, checks, start, kept, dropped)
    decreases |fields|
  {
    if FirstFailure(a, checks, fields).None? {
      kept, dropped := fields, Dropped(log);
    } else {
      var c := FirstFailure(a, checks, fields).value;
      var err := ConfigError(Some(c.path), "invalid");
      FailureIsJustified(a, checks, start, fields, log);
      ReachedNext(start, fields, log, c.element, err);
      DroppedSnoc(log, Blame(c.element, err));
      CapNeverReached(start, fields, log, BuildFrom(a, checks));
      DropShrinks(fields, c.element);
      kept, dropped := ExactFrom(a, checks, start, Drop(fields, c.element), log + [Blame(c.element, err)]);
    }
  }

  /** In terms of the result: an element goes exactly when its value fails a
      check and the surviving fields do not hide it. */
  lemma DropsTheUnmasked(a: Aliases, checks: seq<Check>, start: Fields)
    requires Charged(checks)
    ensures var r := Load(start, Startup, BuildFrom(a, checks));
            && r.Ok?
            && var dropped := Dropped(r.value.diagnostics);
               && r.value.plan == DropAll(start, dropped)
               && (forall e :: e in dropped <==>
                     e != Appearance && Faulty(checks, start, e) && !Masked(a, r.value.plan, e))
  {
    var kept, dropped := ExactFrom(a, checks, start, start, []);
    forall e | e != Appearance && Faulty(checks, start, e) && !Masked(a, kept, e) ensures e in dropped {
      if e !in dropped {
        UntouchedValue(start, dropped, e);
        FirstFailureIs(a, checks, kept);
      }
    }
  }

  /** The input declares the alias of `e` in an `input` table that will stay. */
  ghost predicate Shielded(a: Aliases, checks: seq<Check>, start: Fields, e: Element) {
    Masked(a, start, e) && !Faulty(checks, start, Input)
  }

  /** When every check blames its own element, startup always produces a plan, and
      it drops an element exactly when the element's own value fails a check and
      no fault-free `input` table declares its alias. */
  lemma DropsExactlyTheFaulty(a: Aliases, checks: seq<Check>, start: Fields)
    requires Charged(checks)
    ensures var r := Load(start, Startup, BuildFrom(a, checks));
            && r.Ok?
            && var dropped := Dropped(r.value.diagnostics);
               && r.value.plan == DropAll(start, dropped)
               && (forall e :: e in dropped <==>
                     e != Appearance && Faulty(checks, start, e) && !Shielded(a, checks, start, e))
  {
    DropsTheUnmasked(a, checks, start);
    var r := Load(start, Startup, BuildFrom(a, checks)).value;
    InputKept(start, Dropped(r.diagnostics));
    assert Input in Dropped(r.diagnostics) <==> Faulty(checks, start, Input);
    forall e ensures Masked(a, r.plan, e) <==> Shielded(a, checks, start, e) {
    }
  }

  /** Without a legacy alias the rule is simply: dropped exactly when faulty. */
  lemma DropsExactlyTheFaultyUnaliased(a: Aliases, checks: seq<Check>, start: Fields, e: Element)
    requires Charged(checks) && e != Appearance && e != LeaderKey && e != LeaderTimeout
    ensures Load(start, Startup, BuildFrom(a, checks)).Ok?
    ensures e in Dropped(Load(start, Startup, BuildFrom(a, checks)).value.diagnostics) <==> Faulty(checks, start, e)
  {
    DropsExactlyTheFaulty(a, checks, start);
  }

  /** Every element goes exactly when it is faulty. */
  ghost predicate PlainRule(a: Aliases, checks: seq<Check>, start: Fields) {
    var r := Load(start, Startup, BuildFrom(a, checks));
    r.Ok? && forall e :: e != Appearance ==> (e in Dropped(r.value.diagnostics) <==> Faulty(checks, start, e))
  }

  /** The plain rule holds exactly when no faulty legacy scalar is shielded. */
  lemma PlainRuleExactly(a: Aliases, checks: seq<Check>, start: Fields)
    requires Charged(checks)
    ensures PlainRule(a, checks, start) <==> forall e :: Faulty(checks, start, e) ==> !Shielded(a, checks, start, e)
  {
    DropsExactlyTheFaulty(a, checks, start);
    assert forall e :: Shielded(a, checks, start, e) ==> e == LeaderKey || e == LeaderTimeout;
  }

  /** `e` fails its check, yet the layer loads as it is. */
  ghost predicate KeepsFaulty(a: Aliases, checks: seq<Check>, start: Fields, e: Element) {
    && Charged(checks) && Faulty(checks, start, e)
    && Load(start, Startup, BuildFrom(a, checks)) == Ok(Salvaged(start, []))
  }

  /** A layer whose one checked element is masked is such a case. */
  lemma MaskedKeepsFaulty(a: Aliases, c: Check, start: Fields)
    requires Masked(a, start, c.element) && Fails(c, start) && ElementOfPath(c.path) == Some(c.element)
    requires c.element != Appearance
    ensures KeepsFaulty(a, [c], start, c.element)
  {
    FirstFailureIs(a, [c], start);
    assert [c][0].element == c.element && Fails([c][0], start);
  }

  /** The check of a legacy `leader_key`: it must parse as a chord. */
  predicate BadLeader(raw: string) { Chords.ChordOf(raw).None? }

  const LEADER_CHECK := Check(LeaderKey, "leader_key", BadLeader)

  function LeaderAndInput(leader: string, inputTable: string): Fields {
    map[RawLeaderKey := leader, RawInput := inputTable]
  }

  /** The plain rule fails: a `leader_key` that is no chord, beside an `input`
      table that sets its own leader, is never checked, and stays. */
  lemma ShieldedLeaderStays(a: Aliases, leader: string, inputTable: string)
    requires BadLeader(leader) && a.setsLeader(inputTable)
    ensures KeepsFaulty(a, [LEADER_CHECK], LeaderAndInput(leader, inputTable), LeaderKey)
  {
    LeaderPath();
    LeaderCase(a, leader, inputTable);
    MaskedKeepsFaulty(a, LEADER_CHECK, LeaderAndInput(leader, inputTable));
  }

  lemma LeaderCase(a: Aliases, leader: string, inputTable: string)
    requires BadLeader(leader) && a.setsLeader(inputTable)
    ensures Masked(a, LeaderAndInput(leader, inputTable), LEADER_CHECK.element)
    ensures Fails(LEADER_CHECK, LeaderAndInput(leader, inputTable))
  {
  }

  /** One such leader. */
  lemma UnknownLeaderStays(a: Aliases, inputTable: string)
    requires a.setsLeader(inputTable)
    ensures KeepsFaulty(a, [LEADER_CHECK], LeaderAndInput("zz+", inputTable), LeaderKey)
  {
    Chords.OrderShowsInRefusals();
    ShieldedLeaderStays(a, "zz+", inputTable);
  }

  lemma LeaderPath()
    ensures ElementOfPath("leader_key") == Some(LeaderKey)
  {
    LabelsName(LeaderKey);
    PathChargesItsElement(LeaderKey, []);
    assert "leader_key" + [] == "leader_key";
  }

  /** Only which elements are faulty decides the plan. */
  lemma SameFaultsSamePlan(a: Aliases, c1: seq<Check>, c2: seq<Check>, start: Fields)
    requires Charged(c1) && Charged(c2)
    requires forall e :: Faulty(c1, start, e) <==> Faulty(c2, start, e)
    ensures var r1, r2 := Load(start, Startup, BuildFrom(a, c1)), Load(start, Startup, BuildFrom(a, c2));
            r1.Ok? && r2.Ok? && r1.value.plan == r2.value.plan
  {
    DropsExactlyTheFaulty(a, c1, start);
    DropsExactlyTheFaulty(a, c2, start);
    var r1, r2 := Load(start, Startup, BuildFrom(a, c1)), Load(start, Startup, BuildFrom(a, c2));
    SameDropsSameRest(start, Dropped(r1.value.diagnostics), Dropped(r2.value.diagnostics));
  }

  /** The order of the checks decides only the order of the reports. */
  lemma CheckOrderIrrelevant(a: Aliases, c1: seq<Check>, c2: seq<Check>, start: Fields)
    requires Charged(c1) && multiset(c1) == multiset(c2)
    ensures var r1, r2 := Load(start, Startup, BuildFrom(a, c1)), Load(start, Startup, BuildFrom(a, c2));
            && r1.Ok? && r2.Ok? && r1.value.plan == r2.value.plan
            && (forall e :: e in Dropped(r1.value.diagnostics) <==> e in Dropped(r2.value.diagnostics))
  {
    forall i | 0 <= i < |c2| ensures c2[i] in c1 {
      assert c2[i] in multiset(c2);
    }
    forall i | 0 <= i < |c1| ensures c1[i] in c2 {
      assert c1[i] in multiset(c1);
    }
    forall e ensures Faulty(c1, start, e) <==> Faulty(c2, start, e) {
      if Faulty(c1, start, e) {
        var i :| 0 <= i < |c1| && c1[i].element == e && Fails(c1[i], start);
        var j :| 0 <= j < |c2| && c2[j] == c1[i];
      }
      if Faulty(c2, start, e) {
        var i :| 0 <= i < |c2| && c2[i].element == e && Fails(c2[i], start);
        var j :| 0 <= j < |c1| && c1[j] == c2[i];
      }
    }
    SameFaultsSamePlan(a, c1, c2, start);
    DropsExactlyTheFaulty(a, c1, start);
    DropsExactlyTheFaulty(a, c2, start);
  }

  lemma SameDropsSameRest(start: Fields, d1: seq<Element>, d2: seq<Element>)
    requires forall e :: e in d1 <==> e in d2
    ensures DropAll(start, d1) == DropAll(start, d2)
  {
    var p1, p2 := DropAll(start, d1), DropAll(start, d2);
    forall f ensures f in p1 <==> f in p2 {
      SurvivorsUnchanged(start, d1, f);
      SurvivorsUnchanged(start, d2, f);
    }
    forall f | f in p1 ensures p1[f] == p2[f] {
      SurvivorsUnchanged(start, d1, f);
      SurvivorsUnchanged(start, d2, f);
    }
  }

  lemma InputKept(start: Fields, dropped: seq<Element>)
    ensures RawInput in DropAll(start, dropped) <==> RawInput in start && Input !in dropped
    ensures RawInput in DropAll(start, dropped) ==> DropAll(start, dropped)[RawInput] == start[RawInput]
  {
    SurvivorsUnchanged(start, dropped, RawInput);
    assert forall e :: RawInput in FieldsOf(e) <==> e == Input;
  }

  // ---------------------------------------------------------------- paths and elements

  /** A name the path grammar cannot split and no appearance rule can claim. */
  predicate PlainName(name: string) {
    && name != [] && name[0] != 'a' && name != "theme"
    && (forall i :: 0 <= i < |name| ==> name[i] != '.' && name[i] != '[')
  }

  lemma ViewNames()
    ensures PlainName("font") && ElementOfHead("font") == Some(Font)
    ensures PlainName("window") && ElementOfHead("window") == Some(Window)
    ensures PlainName("terminal") && ElementOfHead("terminal") == Some(Terminal)
    ensures PlainName("selection") && ElementOfHead("selection") == Some(Selection)
    ensures PlainName("history") && ElementOfHead("history") == Some(History)
    ensures PlainName("layout") && ElementOfHead("layout") == Some(Layout)
  {
  }

  lemma ChromeNames()
    ensures PlainName("workspace") && ElementOfHead("workspace") == Some(Workspace)
    ensures PlainName("chrome") && ElementOfHead("chrome") == Some(Chrome)
    ensures PlainName("decoration") && ElementOfHead("decoration") == Some(Decoration)
    ensures PlainName("views") && ElementOfHead("views") == Some(Views)
    ensures PlainName("scrollbar") && ElementOfHead("scrollbar") == Some(Scrollbar)
    ensures PlainName("mouse") && ElementOfHead("mouse") == Some(Mouse)
  {
  }

  lemma ModNames()
    ensures PlainName("mod_key") && ElementOfHead("mod_key") == Some(ModKey)
    ensures PlainName("leader_key") && ElementOfHead("leader_key") == Some(LeaderKey)
  {
  }

  lemma InputNames()
    ensures PlainName("leader_timeout_ms") && ElementOfHead("leader_timeout_ms") == Some(LeaderTimeout)
    ensures PlainName("input") && ElementOfHead("input") == Some(Input)
    ensures PlainName("hints_enabled") && ElementOfHead("hints_enabled") == Some(Hints)
  {
  }

  lemma SessionNames()
    ensures PlainName("session") && ElementOfHead("session") == Some(Session)
    ensures PlainName("close_confirm") && ElementOfHead("close_confirm") == Some(CloseConfirm)
    ensures PlainName("keymaps") && ElementOfHead("keymaps") == Some(Keymaps)
  {
  }

  lemma PluginNames()
    ensures PlainName("plugins") && ElementOfHead("plugins") == Some(Plugins)
    ensures PlainName("panel_rules") && ElementOfHead("panel_rules") == Some(PanelRules)
  {
  }

  predicate InAppearance(e: Element) {
    e == Appearance || e == Animations || e == AppearanceColors || e == AppearanceStyle || e == AppearanceTheme
  }

  lemma {:induction false} HeadOfName(name: string, suffix: string)
    requires forall i :: 0 <= i < |name| ==> name[i] != '.' && name[i] != '['
    requires suffix == [] || suffix[0] == '.' || suffix[0] == '['
    ensures Head(name + suffix) == name
  {
    if name == [] {
      assert name + suffix == suffix;
    } else {
      assert (name + suffix)[1..] == name[1..] + suffix;
      HeadOfName(name[1..], suffix);
    }
  }

  lemma LabelsName(e: Element)
    requires !InAppearance(e)
    ensures PlainName(Label(e)) && ElementOfHead(Label(e)) == Some(e)
  {
    ViewNames();
    ChromeNames();
    ModNames();
    InputNames();
    SessionNames();
    PluginNames();
  }

  lemma NamedPath(name: string, suffix: string)
    requires PlainName(name) && (suffix == [] || suffix[0] == '.' || suffix[0] == '[')
    ensures ElementOfPath(name + suffix) == ElementOfHead(name)
  {
    HeadOfName(name, suffix);
    var field := name + suffix;
    assert field[0] == name[0];
    HeadOfName("theme", []);
    assert "theme" + [] == "theme";
  }

  /** Whatever path inside an element's table an error names, the element itself
      is charged: the whole table, or the whole appearance family member. */
  lemma PathChargesItsElement(e: Element, suffix: string)
    requires suffix == [] || suffix[0] == '.' || suffix[0] == '['
    requires e != Appearance
    ensures ElementOfPath(Label(e) + suffix) == Some(e)
  {
    if InAppearance(e) {
      AppearancePath(e, suffix);
    } else {
      LabelsName(e);
      NamedPath(Label(e), suffix);
    }
  }

  lemma AppearancePath(e: Element, suffix: string)
    requires InAppearance(e) && e != Appearance
    ensures ElementOfPath(Label(e) + suffix) == Some(e)
  {
    var field := Label(e) + suffix;
    assert Label(e) <= field;
    assert field[11] == Label(e)[11] && field[12] == Label(e)[12];
  }

  // ---------------------------------------------------------------- raw fields and their keys

  /** The configuration key each raw field is read from. */
  function KeyName(f: RawField): string {
    match f
    case RawAppearanceTheme => "appearance.theme"
    case RawTheme => "theme"
    case RawColors => "appearance.colors"
    case RawAnimations => "appearance.animations"
    case RawStyle => "appearance.style"
    case RawFont => "font"
    case RawWindow => "window"
    case RawTerminal => "terminal"
    case RawSelection => "selection"
    case RawHistory => "history"
    case RawLayout => "layout"
    case RawWorkspace => "workspace"
    case RawChrome => "chrome"
    case RawDecoration => "decoration"
    case RawViews => "views"
    case RawScrollbar => "scrollbar"
    case RawMouse => "mouse"
    case RawModKey => "mod_key"
    case RawLeaderKey => "leader_key"
    case RawLeaderTimeout => "leader_timeout_ms"
    case RawInput => "input"
    case RawHints => "hints_enabled"
    case RawSession => "session"
    case RawCloseConfirm => "close_confirm"
    case RawKeymaps => "keymaps"
    case RawPlugins => "plugins"
    case RawPanelRules => "panel_rules"
  }

  lemma OwnLabelIsKey(e: Element)
    requires e != Appearance
    ensures Label(e) == KeyName(FieldOf(e))
  {
  }

  lemma LabelIsKey(f: RawField)
    requires f != RawTheme
    ensures Label(Owner(f)) == KeyName(f)
  {
    OwnOfOwner(f);
    OwnLabelIsKey(Owner(f));
  }

  lemma ThemePath()
    ensures ElementOfPath("theme") == Some(AppearanceTheme)
  {
  }

  /** The fields that go together with `f`: the theme has a legacy alias. */
  function Twins(f: RawField): set<RawField> {
    if f == RawAppearanceTheme || f == RawTheme then {RawAppearanceTheme, RawTheme} else {f}
  }

  /** An error at a field's own key, or at any path under it, drops that very
      field, and no other but the theme's alias. */
  lemma KeyErrorDropsField(f: RawField, suffix: string)
    requires suffix == [] || suffix[0] == '.' || suffix[0] == '['
    requires f == RawTheme ==> suffix == []
    ensures ElementOfPath(KeyName(f) + suffix) == Some(Owner(f)) && FieldsOf(Owner(f)) == Twins(f)
  {
    OwnerTwins(f);
    if f == RawTheme {
      ThemePath();
      assert KeyName(f) + suffix == "theme";
    } else {
      OwnKeyPath(f, suffix);
    }
  }

  lemma OwnerTwins(f: RawField)
    ensures FieldsOf(Owner(f)) == Twins(f)
  {
    if f != RawTheme {
      OwnOfOwner(f);
    }
    FieldsOfOne(Owner(f));
  }

  lemma OwnKeyPath(f: RawField, suffix: string)
    requires f != RawTheme && (suffix == [] || suffix[0] == '.' || suffix[0] == '[')
    ensures ElementOfPath(KeyName(f) + suffix) == Some(Owner(f))
  {
    LabelIsKey(f);
    OwnOfOwner(f);
    PathChargesItsElement(Owner(f), suffix);
  }

  /** Dropping the appearance table as a whole drops its four parts. */
  lemma AppearanceIsItsParts()
    ensures FieldsOf(Appearance) == FieldsOf(AppearanceTheme) + FieldsOf(AppearanceColors) + FieldsOf(Animations)
                                    + FieldsOf(AppearanceStyle)
  {
  }

  /** One drop that cures the layer. */
  lemma OneDrop<P>(start: Fields, e: Element, err: ConfigError, plan: P, build: Fields -> Result<P, ConfigError>)
    requires build(start) == Err(err) && SalvageableElement(err) == Some(e) && Present(start, e)
    requires build(Drop(start, e)) == Ok(plan)
    ensures Load(start, Startup, build) == Ok(Salvaged(plan, [Blame(e, err)]))
  {
    DropShrinks(start, e);
    var log := [] + [Blame(e, err)];
    assert SalvageFrom(Drop(start, e), log, build) == Ok(Salvaged(plan, log));
    assert log == [Blame(e, err)];
    assert e !in Dropped([]);
  }

  /** So a layer with one bad key loads without it, everything else kept. */
  lemma BadKeyIsDropped<P>(start: Fields, f: RawField, suffix: string, message: string, plan: P,
                           build: Fields -> Result<P, ConfigError>)
    requires suffix == [] || suffix[0] == '.' || suffix[0] == '['
    requires f in start && (f == RawTheme ==> suffix == [])
    requires build(start) == Err(ConfigError(Some(KeyName(f) + suffix), message))
    requires build(start - Twins(f)) == Ok(plan)
    ensures Load(start, Startup, build)
         == Ok(Salvaged(plan, [Diagnostic(Owner(f), Label(Owner(f)), message)]))
  {
    KeyErrorDropsField(f, suffix);
    PresentByField(start, f);
    OneDrop(start, Owner(f), ConfigError(Some(KeyName(f) + suffix), message), plan, build);
  }

  lemma PresentByField(start: Fields, f: RawField)
    requires f in start && FieldsOf(Owner(f)) == Twins(f)
    ensures Present(start, Owner(f))
  {
    assert f in FieldsOf(Owner(f));
  }

  /** Startup fails only with an error that names no droppable element present in
      what is left. */
  lemma {:induction false} FailureIsUnsalvageable<P>(start: Fields, fields: Fields, log: seq<Diagnostic>,
                                                     build: Fields -> Result<P, ConfigError>)
    returns (left: Fields, dropped: seq<Element>)
    requires Reached(start, fields, log) && SalvageFrom(fields, log, build).Err?
    ensures left == DropAll(start, dropped) && build(left) == Err(SalvageFrom(fields, log, build).error)
    ensures match SalvageableElement(SalvageFrom(fields, log, build).error)
            case None => true
            case Some(e) => !Present(left, e)
    decreases |fields|
  {
    var err := build(fields).error;
    match SalvageableElement(err)
    case None => left, dropped := fields, Dropped(log);
    case Some(e) =>
      CapNeverReached(start, fields, log, build);
      if Present(fields, e) {
        ReachedNext(start, fields, log, e, err);
        DropShrinks(fields, e);
        left, dropped := FailureIsUnsalvageable(start, Drop(fields, e), log + [Blame(e, err)], build);
      } else {
        left, dropped := fields, Dropped(log);
      }
  }
}
