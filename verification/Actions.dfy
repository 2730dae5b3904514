/** Chrome actions (crates/bitty-config/src/keymap.rs): the action grammar, its
    canonical printer, and the `command:` form that carries a JSON document. */
module Actions {
  import opened Wrappers
  import opened Text
  import ArgsJson

  const MAX_ACTION_LEN: nat := 320
  const MAX_INVOKE_COMMAND_LEN: nat := 257
  const MAX_INVOKE_ARGS_BYTES: nat := 4096
  const MAX_COMMAND_ACTION_LEN: nat := 8 + MAX_INVOKE_COMMAND_LEN + 4 + MAX_INVOKE_ARGS_BYTES
  const MAX_FOCUS_ID: nat := 256
  const MAX_WORKSPACE_INDEX: nat := 16
  const MAX_U64: nat := 0xFFFF_FFFF_FFFF_FFFF

  datatype SplitDir = ToLeft | ToRight | ToUp | ToDown

  /** The actions that take no argument. */
  datatype Verb =
    | NewPanel | CloseView | ToggleZoom | ToggleHelp | FocusNext | FocusPrev
    | CopyToClipboard | PasteFromClipboard | PasteFromPrimary | ScrollPageUp | ScrollPageDown
    | IncreaseFontSize | DecreaseFontSize | ResetFontSize | OpenComposer
    | FoldToggle | FoldExpand | FoldCollapse
    | WorkspaceNew | WorkspaceClose | WorkspacePrev | WorkspaceNext | WorkspaceLast
    | WorkspaceNextOccupied | WorkspacePrevOccupied
    | SelectCommandOutput | TogglePalette | ToggleFloating | TogglePinned

  datatype ChromeAction =
    | Simple(verb: Verb)
    | GotoSplit(dir: SplitDir) | NewSplit(dir: SplitDir) | ResizeSplit(dir: SplitDir)
    | FocusId(id: nat)
    | WorkspaceFocus(index: nat) | WorkspaceMove(index: nat) | WorkspaceSwap(index: nat)
    | JumpToPromptPrev | JumpToPromptNext
    | InvokeCommand(target: string, args: Option<string>)

  // ---------------------------------------------------------------- the parser

  datatype ActionError =
    | Empty | TooLong | UnknownAction | NeedsDirection | UnknownDirection(other: string)
    | TakesNoArgument | NeedsNumber
    | NeedsQualifiedCommand | NeedsSeparator | ArgsTooLarge | InvalidArgs(reason: ArgsJson.Reason)

  /** The argument-free actions, family by family. */
  function VerbOf(head: string): Option<Verb> {
    if PanelVerbOf(head).Some? then PanelVerbOf(head)
    else if ZoomVerbOf(head).Some? then ZoomVerbOf(head)
    else if FocusVerbOf(head).Some? then FocusVerbOf(head)
    else if ViewVerbOf(head).Some? then ViewVerbOf(head)
    else if ScrollVerbOf(head).Some? then ScrollVerbOf(head)
    else if SizeVerbOf(head).Some? then SizeVerbOf(head)
    else if FoldVerbOf(head).Some? then FoldVerbOf(head)
    else if WorkspaceVerbOf(head).Some? then WorkspaceVerbOf(head)
    else if NextVerbOf(head).Some? then NextVerbOf(head)
    else if PrevVerbOf(head).Some? then PrevVerbOf(head)
    else if OverlayVerbOf(head).Some? then OverlayVerbOf(head)
    else LayoutVerbOf(head)
  }

  function PanelVerbOf(head: string): Option<Verb> {
    if head == "new_panel" then Some(NewPanel)
    else if head == "close_view" || head == "close_surface" || head == "close_panel" || head == "exit_panel"
         || head == "close_focused_panel" then Some(CloseView)
    else if head == "toggle_help" || head == "show_help" then Some(ToggleHelp)
    else None
  }

  function ZoomVerbOf(head: string): Option<Verb> {
    if head == "toggle_zoom" || head == "toggle_split_zoom" || head == "suspend_panel" || head == "detach_panel"
         || head == "suspend_focused_panel" || head == "detach_focused_panel" then Some(ToggleZoom)
    else None
  }

  function FocusVerbOf(head: string): Option<Verb> {
    if head == "focus_next" then Some(FocusNext)
    else if head == "focus_prev" then Some(FocusPrev)
    else if head == "open_composer" then Some(OpenComposer)
    else None
  }

  function ViewVerbOf(head: string): Option<Verb> {
    if head == "copy_to_clipboard" then Some(CopyToClipboard)
    else if head == "paste_from_clipboard" then Some(PasteFromClipboard)
    else if head == "paste_from_primary" then Some(PasteFromPrimary)
    else None
  }

  function ScrollVerbOf(head: string): Option<Verb> {
    if head == "scroll_page_up" then Some(ScrollPageUp)
    else if head == "scroll_page_down" then Some(ScrollPageDown)
    else None
  }

  function SizeVerbOf(head: string): Option<Verb> {
    if head == "increase_font_size" || head == "zoom_in" || head == "font_zoom_in" then Some(IncreaseFontSize)
    else if head == "decrease_font_size" || head == "zoom_out" || head == "font_zoom_out" then Some(DecreaseFontSize)
    else if head == "reset_font_size" || head == "zoom_reset" || head == "font_zoom_reset" then Some(ResetFontSize)
    else None
  }

  function FoldVerbOf(head: string): Option<Verb> {
    if head == "fold_toggle" || head == "toggle_fold" then Some(FoldToggle)
    else if head == "fold_expand" || head == "expand_fold" then Some(FoldExpand)
    else if head == "fold_collapse" || head == "collapse_fold" then Some(FoldCollapse)
    else None
  }

  function WorkspaceVerbOf(head: string): Option<Verb> {
    if head == "workspace_new" then Some(WorkspaceNew)
    else if head == "workspace_close" then Some(WorkspaceClose)
    else if head == "workspace_prev" then Some(WorkspacePrev)
    else if head == "workspace_next" then Some(WorkspaceNext)
    else if head == "workspace_last" then Some(WorkspaceLast)
    else None
  }

  function NextVerbOf(head: string): Option<Verb> {
    if head == "workspace_next_occupied" || head == "workspace_cycle_next"
         || head == "workspace_cycle_next_occupied" then Some(WorkspaceNextOccupied)
    else None
  }

  function PrevVerbOf(head: string): Option<Verb> {
    if head == "workspace_prev_occupied" || head == "workspace_cycle_prev"
         || head == "workspace_cycle_prev_occupied" then Some(WorkspacePrevOccupied)
    else None
  }

  function OverlayVerbOf(head: string): Option<Verb> {
    if head == "select_command_output" || head == "select_output" then Some(SelectCommandOutput)
    else if head == "toggle_palette" || head == "open_palette" || head == "palette_toggle" then Some(TogglePalette)
    else None
  }

  function LayoutVerbOf(head: string): Option<Verb> {
    if head == "toggle_floating" || head == "floating_toggle" then Some(ToggleFloating)
    else if head == "toggle_pinned" || head == "pinned_toggle" then Some(TogglePinned)
    else None
  }

  predicate IsCommandHead(head: string) {
    head == "command" || head == "invoke_command" || head == "run_command"
  }

  function ParseDir(raw: string): Result<SplitDir, ActionError> {
    var d := Lower(Trim(Rust, raw));
    if d == "left" then Ok(ToLeft)
    else if d == "right" then Ok(ToRight)
    else if d == "up" then Ok(ToUp)
    else if d == "down" then Ok(ToDown)
    else Err(UnknownDirection(d))
  }

  function RequireDir(arg: Option<string>): Result<SplitDir, ActionError> {
    if arg.Some? && arg.value != [] then ParseDir(arg.value) else Err(NeedsDirection)
  }

  function RequireNumber(arg: Option<string>, max: nat): Result<nat, ActionError> {
    if arg.Some? && arg.value != [] then
      match ParseUnsigned(arg.value, MAX_U64)
      case Some(n) => if 1 <= n <= max then Ok(n) else Err(NeedsNumber)
      case None => Err(NeedsNumber)
    else Err(NeedsNumber)
  }

  /** Actions that take a required argument. */
  datatype ArgHead =
    | HeadGoto | HeadNew | HeadResize | HeadFocus | HeadWorkspaceFocus | HeadWorkspaceMove
    | HeadWorkspaceSwap | HeadJump

  function ArgHeadOf(head: string): Option<ArgHead> {
    if head == "goto_split" then Some(HeadGoto)
    else if head == "new_split" then Some(HeadNew)
    else if head == "resize_split" then Some(HeadResize)
    else if head == "focus" then Some(HeadFocus)
    else if head == "workspace_focus" then Some(HeadWorkspaceFocus)
    else if head == "workspace_move" || head == "workspace_move_window" then Some(HeadWorkspaceMove)
    else if head == "workspace_swap" then Some(HeadWorkspaceSwap)
    else if head == "jump_to_prompt" then Some(HeadJump)
    else None
  }

  function ParseArgument(head: ArgHead, arg: Option<string>): Result<ChromeAction, ActionError> {
    match head
    case HeadGoto => (match RequireDir(arg) case Ok(d) => Ok(GotoSplit(d)) case Err(e) => Err(e))
    case HeadNew => (match RequireDir(arg) case Ok(d) => Ok(NewSplit(d)) case Err(e) => Err(e))
    case HeadResize => (match RequireDir(arg) case Ok(d) => Ok(ResizeSplit(d)) case Err(e) => Err(e))
    case HeadFocus => (match RequireNumber(arg, MAX_FOCUS_ID) case Ok(n) => Ok(FocusId(n)) case Err(e) => Err(e))
    case HeadWorkspaceFocus =>
      (match RequireNumber(arg, MAX_WORKSPACE_INDEX) case Ok(n) => Ok(WorkspaceFocus(n)) case Err(e) => Err(e))
    case HeadWorkspaceMove =>
      (match RequireNumber(arg, MAX_WORKSPACE_INDEX) case Ok(n) => Ok(WorkspaceMove(n)) case Err(e) => Err(e))
    case HeadWorkspaceSwap =>
      (match RequireNumber(arg, MAX_WORKSPACE_INDEX) case Ok(n) => Ok(WorkspaceSwap(n)) case Err(e) => Err(e))
    case HeadJump =>
      if arg == Some("prev") || arg == Some("previous") || arg == Some("up") then Ok(JumpToPromptPrev)
      else if arg == Some("next") || arg == Some("down") then Ok(JumpToPromptNext)
      else Err(NeedsDirection)
  }

  function RejectArg(arg: Option<string>, action: ChromeAction): Result<ChromeAction, ActionError> {
    if arg.Some? && arg.value != [] then Err(TakesNoArgument) else Ok(action)
  }

  /** The closed catalog: everything but the `command:` form. */
  function ParseCatalog(head: string, arg: Option<string>): Result<ChromeAction, ActionError> {
    match ArgHeadOf(head)
    case Some(h) => ParseArgument(h, arg)
    case None =>
      if head == "jump_to_prompt_prev" || head == "prompt_prev" then RejectArg(arg, JumpToPromptPrev)
      else if head == "jump_to_prompt_next" || head == "prompt_next" then RejectArg(arg, JumpToPromptNext)
      else
        match VerbOf(head)
        case Some(v) => RejectArg(arg, Simple(v))
        case None => Err(UnknownAction)
  }

  /** `require_invoke_command`: one qualified `owner:command` name. */
  predicate TargetOk(target: string) {
    && target != [] && ByteLen(target) <= MAX_INVOKE_COMMAND_LEN
    && Lacks(target, '\0') && Lacks(target, ' ')
    && match SplitOnce(target, ':')
       case None => false
       case Some((owner, command)) => owner != [] && command != [] && Lacks(command, ':')
  }

  /** `CommandInvocation::with_args`. */
  function WithArgs(target: string, blob: string): Result<ChromeAction, ActionError> {
    if ByteLen(blob) > MAX_INVOKE_ARGS_BYTES then Err(ArgsTooLarge)
    else
      match ArgsJson.Outcome(blob)
      case Err(reason) => Err(InvalidArgs(reason))
      case Ok(_) => Ok(InvokeCommand(target, Some(blob)))
  }

  /** `parse_invoke_command`, on the original-case tail. */
  function ParseInvoke(tail: string): Result<ChromeAction, ActionError> {
    var i := FirstSpace(Rust, tail);
    var target := Lower(tail[..i]);
    if !TargetOk(target) then Err(NeedsQualifiedCommand)
    else if i == |tail| then Ok(InvokeCommand(target, None))
    else
      var rest := Trim(Rust, tail[i + 1..]);
      if !("--" <= rest) then Err(NeedsSeparator)
      else
        var after := rest[2..];
        if after == [] || !IsSpace(Rust, after[0]) || Trim(Rust, after) == [] then Err(NeedsSeparator)
        else WithArgs(target, Trim(Rust, after))
  }

  /** The lowered head and argument around the first colon. */
  function HeadArg(lowered: string): (string, Option<string>) {
    match SplitOnce(lowered, ':')
    case Some((h, a)) => (Trim(Rust, h), Some(Trim(Rust, a)))
    case None => (lowered, None)
  }

  function TailOf(trimmed: string): string {
    match SplitOnce(trimmed, ':')
    case Some((_, tail)) => Trim(Rust, tail)
    case None => []
  }

  /** `ChromeAction::parse`. */
  function ParseAction(raw: string): Result<ChromeAction, ActionError> {
    var trimmed := Trim(Rust, raw);
    if trimmed == [] then Err(Empty)
    else
      var (head, arg) := HeadArg(Lower(trimmed));
      if IsCommandHead(head) then
        if ByteLen(trimmed) > MAX_COMMAND_ACTION_LEN then Err(TooLong) else ParseInvoke(TailOf(trimmed))
      else if ByteLen(trimmed) > MAX_ACTION_LEN then Err(TooLong)
      else ParseCatalog(head, arg)
  }

  // ---------------------------------------------------------------- the printer

  function DirText(d: SplitDir): string {
    match d
    case ToLeft => "left"
    case ToRight => "right"
    case ToUp => "up"
    case ToDown => "down"
  }

  function VerbText(v: Verb): string {
    match v
    case NewPanel => "new_panel"
    case CloseView => "close_view"
    case ToggleZoom => "toggle_zoom"
    case ToggleHelp => "toggle_help"
    case FocusNext => "focus_next"
    case FocusPrev => "focus_prev"
    case CopyToClipboard => "copy_to_clipboard"
    case PasteFromClipboard => "paste_from_clipboard"
    case PasteFromPrimary => "paste_from_primary"
    case ScrollPageUp => "scroll_page_up"
    case ScrollPageDown => "scroll_page_down"
    case IncreaseFontSize => "increase_font_size"
    case DecreaseFontSize => "decrease_font_size"
    case ResetFontSize => "reset_font_size"
    case OpenComposer => "open_composer"
    case FoldToggle => "fold_toggle"
    case FoldExpand => "fold_expand"
    case FoldCollapse => "fold_collapse"
    case WorkspaceNew => "workspace_new"
    case WorkspaceClose => "workspace_close"
    case WorkspacePrev => "workspace_prev"
    case WorkspaceNext => "workspace_next"
    case WorkspaceLast => "workspace_last"
    case WorkspaceNextOccupied => "workspace_next_occupied"
    case WorkspacePrevOccupied => "workspace_prev_occupied"
    case SelectCommandOutput => "select_command_output"
    case TogglePalette => "toggle_palette"
    case ToggleFloating => "toggle_floating"
    case TogglePinned => "toggle_pinned"
  }

  /** `ChromeAction::canonical`. */
  function Canonical(a: ChromeAction): string {
    match a
    case Simple(v) => VerbText(v)
    case GotoSplit(d) => WithArg("goto_split", DirText(d))
    case NewSplit(d) => WithArg("new_split", DirText(d))
    case ResizeSplit(d) => WithArg("resize_split", DirText(d))
    case FocusId(n) => WithArg("focus", Decimal(n))
    case WorkspaceFocus(n) => WithArg("workspace_focus", Decimal(n))
    case WorkspaceMove(n) => WithArg("workspace_move", Decimal(n))
    case WorkspaceSwap(n) => WithArg("workspace_swap", Decimal(n))
    case JumpToPromptPrev => WithArg("jump_to_prompt", "prev")
    case JumpToPromptNext => WithArg("jump_to_prompt", "next")
    case InvokeCommand(target, None) => WithArg("command", target)
    case InvokeCommand(target, Some(blob)) => WithArg("command", target + " -- " + blob)
  }

  function WithArg(head: string, arg: string): string { head + [':'] + arg }

  // ---------------------------------------------------------------- what parsing returns

  /** What the parser can return. */
  predicate ValidAction(a: ChromeAction) {
    match a
    case FocusId(n) => 1 <= n <= MAX_FOCUS_ID
    case WorkspaceFocus(n) => 1 <= n <= MAX_WORKSPACE_INDEX
    case WorkspaceMove(n) => 1 <= n <= MAX_WORKSPACE_INDEX
    case WorkspaceSwap(n) => 1 <= n <= MAX_WORKSPACE_INDEX
    case InvokeCommand(target, args) =>
      && TargetOk(target) && NoSpace(Rust, target) && IsLower(target)
      && (args.Some? ==> DocumentOk(args.value))
    case _ => true
  }

  /** An args document a binding may carry. */
  predicate DocumentOk(blob: string) {
    && blob != [] && Trimmed(Rust, blob) && ByteLen(blob) <= MAX_INVOKE_ARGS_BYTES
    && ArgsJson.Outcome(blob).Ok?
  }

  lemma InvokeIsValid(tail: string)
    requires ParseInvoke(tail).Ok?
    ensures ValidAction(ParseInvoke(tail).value)
  {
    var i := FirstSpace(Rust, tail);
    LowerIsLower(tail[..i]);
    forall j | 0 <= j < i ensures !IsSpace(Rust, Lower(tail[..i])[j]) {
      LowerCharFixes(tail[j]);
    }
    if i < |tail| {
      var after := Trim(Rust, tail[i + 1..])[2..];
      var _, _ := TrimShape(Rust, after);
    }
  }

  lemma ArgumentIsValid(head: ArgHead, arg: Option<string>)
    requires ParseArgument(head, arg).Ok?
    ensures ValidAction(ParseArgument(head, arg).value)
  {
  }

  lemma CatalogIsValid(head: string, arg: Option<string>)
    requires ParseCatalog(head, arg).Ok?
    ensures ValidAction(ParseCatalog(head, arg).value)
  {
    match ArgHeadOf(head)
    case Some(h) => ArgumentIsValid(h, arg);
    case None =>
  }

  lemma ParsedIsValid(raw: string)
    requires ParseAction(raw).Ok?
    ensures ValidAction(ParseAction(raw).value)
  {
    var trimmed := Trim(Rust, raw);
    var (head, arg) := HeadArg(Lower(trimmed));
    if IsCommandHead(head) {
      InvokeIsValid(TailOf(trimmed));
    } else {
      CatalogIsValid(head, arg);
    }
  }

  // ---------------------------------------------------------------- the names of the catalog

  /** What a head can name. */
  datatype Name = VerbName(verb: Verb) | ArgName(head: ArgHead) | PrevName | NextName | CommandName

  /** Every spelling of a name, the canonical one first. */
  function Spellings(n: Name): seq<string> {
    match n
    case VerbName(v) => VerbSpellings(v)
    case ArgName(h) => HeadSpellings(h)
    case PrevName => ["jump_to_prompt_prev", "prompt_prev"]
    case NextName => ["jump_to_prompt_next", "prompt_next"]
    case CommandName => ["command", "invoke_command", "run_command"]
  }

  function VerbSpellings(v: Verb): (spellings: seq<string>)
    ensures spellings != []
  {
    match v
    case NewPanel => ["new_panel"]
    case CloseView => ["close_view", "close_surface", "close_panel", "exit_panel", "close_focused_panel"]
    case ToggleZoom =>
      ["toggle_zoom", "toggle_split_zoom", "suspend_panel", "detach_panel",
       "suspend_focused_panel", "detach_focused_panel"]
    case ToggleHelp => ["toggle_help", "show_help"]
    case FocusNext => ["focus_next"]
    case FocusPrev => ["focus_prev"]
    case CopyToClipboard => ["copy_to_clipboard"]
    case PasteFromClipboard => ["paste_from_clipboard"]
    case PasteFromPrimary => ["paste_from_primary"]
    case ScrollPageUp => ["scroll_page_up"]
    case ScrollPageDown => ["scroll_page_down"]
    case IncreaseFontSize => ["increase_font_size", "zoom_in", "font_zoom_in"]
    case DecreaseFontSize => ["decrease_font_size", "zoom_out", "font_zoom_out"]
    case ResetFontSize => ["reset_font_size", "zoom_reset", "font_zoom_reset"]
    case OpenComposer => ["open_composer"]
    case FoldToggle => ["fold_toggle", "toggle_fold"]
    case FoldExpand => ["fold_expand", "expand_fold"]
    case FoldCollapse => ["fold_collapse", "collapse_fold"]
    case WorkspaceNew => ["workspace_new"]
    case WorkspaceClose => ["workspace_close"]
    case WorkspacePrev => ["workspace_prev"]
    case WorkspaceNext => ["workspace_next"]
    case WorkspaceLast => ["workspace_last"]
    case WorkspaceNextOccupied => ["workspace_next_occupied", "workspace_cycle_next", "workspace_cycle_next_occupied"]
    case WorkspacePrevOccupied => ["workspace_prev_occupied", "workspace_cycle_prev", "workspace_cycle_prev_occupied"]
    case SelectCommandOutput => ["select_command_output", "select_output"]
    case TogglePalette => ["toggle_palette", "open_palette", "palette_toggle"]
    case ToggleFloating => ["toggle_floating", "floating_toggle"]
    case TogglePinned => ["toggle_pinned", "pinned_toggle"]
  }

  function HeadSpellings(h: ArgHead): seq<string> {
    match h
    case HeadGoto => ["goto_split"]
    case HeadNew => ["new_split"]
    case HeadResize => ["resize_split"]
    case HeadFocus => ["focus"]
    case HeadWorkspaceFocus => ["workspace_focus"]
    case HeadWorkspaceMove => ["workspace_move", "workspace_move_window"]
    case HeadWorkspaceSwap => ["workspace_swap"]
    case HeadJump => ["jump_to_prompt"]
  }

  /** A number that tells the spellings apart. */
  function Fingerprint(s: string): int {
    5 * CharAt(s, 0) + CharAt(s, 7) + 2 * CharAt(s, 11) + 2 * CharAt(s, 16) + 7 * |s|
  }

  /** Whose spelling has this fingerprint. */
  function Owner(code: int): Option<Name> {
    match code
    case 714 => Some(VerbName(NewPanel))
    case 670 | 901 | 669 | 685 | 1161 => Some(VerbName(CloseView))
    case 779 | 1264 | 963 | 912 | 1275 | 1166 => Some(VerbName(ToggleZoom))
    case 761 | 746 => Some(VerbName(ToggleHelp))
    case 681 => Some(VerbName(FocusNext))
    case 694 => Some(VerbName(FocusPrev))
    case 1133 => Some(VerbName(CopyToClipboard))
    case 1234 => Some(VerbName(PasteFromClipboard))
    case 1252 => Some(VerbName(PasteFromPrimary))
    case 975 => Some(VerbName(ScrollPageUp))
    case 989 => Some(VerbName(ScrollPageDown))
    case 1216 | 659 | 925 => Some(VerbName(IncreaseFontSize))
    case 1191 | 782 | 946 => Some(VerbName(DecreaseFontSize))
    case 1016 | 795 | 928 => Some(VerbName(ResetFontSize))
    case 957 => Some(VerbName(OpenComposer))
    case 690 | 759 => Some(VerbName(FoldToggle))
    case 699 | 684 => Some(VerbName(FoldExpand))
    case 939 | 903 => Some(VerbName(FoldCollapse))
    case 987 => Some(VerbName(WorkspaceNew))
    case 1015 => Some(VerbName(WorkspaceClose))
    case 1020 => Some(VerbName(WorkspacePrev))
    case 994 => Some(VerbName(WorkspaceNext))
    case 986 => Some(VerbName(WorkspaceLast))
    case 1255 | 1296 | 1359 => Some(VerbName(WorkspaceNextOccupied))
    case 1281 | 1300 | 1363 => Some(VerbName(WorkspacePrevOccupied))
    case 1249 | 1011 => Some(VerbName(SelectCommandOutput))
    case 1022 | 949 | 959 => Some(VerbName(TogglePalette))
    case 1019 | 924 => Some(VerbName(ToggleFloating))
    case 985 | 983 => Some(VerbName(TogglePinned))
    case 693 => Some(ArgName(HeadGoto))
    case 718 => Some(ArgName(HeadNew))
    case 1001 => Some(ArgName(HeadResize))
    case 545 => Some(ArgName(HeadFocus))
    case 1021 => Some(ArgName(HeadWorkspaceFocus))
    case 1014 | 1273 => Some(ArgName(HeadWorkspaceMove))
    case 1030 => Some(ArgName(HeadWorkspaceSwap))
    case 941 => Some(ArgName(HeadJump))
    case 1204 | 749 => Some(PrevName)
    case 1178 | 747 => Some(NextName)
    case 544 | 916 | 756 => Some(CommandName)
    case _ => None
  }

  /** Names whose facts are read off together, to keep the case analyses over
      spellings small. */
  datatype Family =
    | PanelFamily | ZoomFamily | FocusFamily | ViewFamily | ScrollFamily | SizeFamily | FoldFamily | WorkspaceFamily
    | NextFamily | PrevFamily | OverlayFamily | LayoutFamily | SplitFamily | PlaceFamily | OtherFamily

  function FamilyOf(n: Name): Family {
    match n
    case VerbName(v) => VerbFamily(v)
    case ArgName(h) =>
      if h.HeadWorkspaceFocus? || h.HeadWorkspaceMove? || h.HeadWorkspaceSwap? then PlaceFamily else SplitFamily
    case _ => OtherFamily
  }

  function VerbFamily(v: Verb): Family {
    match v
    case NewPanel | CloseView | ToggleHelp => PanelFamily
    case ToggleZoom => ZoomFamily
    case FocusNext | FocusPrev | OpenComposer => FocusFamily
    case CopyToClipboard | PasteFromClipboard | PasteFromPrimary => ViewFamily
    case ScrollPageUp | ScrollPageDown => ScrollFamily
    case IncreaseFontSize | DecreaseFontSize | ResetFontSize => SizeFamily
    case FoldToggle | FoldExpand | FoldCollapse => FoldFamily
    case WorkspaceNew | WorkspaceClose | WorkspacePrev | WorkspaceNext | WorkspaceLast => WorkspaceFamily
    case WorkspaceNextOccupied => NextFamily
    case WorkspacePrevOccupied => PrevFamily
    case SelectCommandOutput | TogglePalette => OverlayFamily
    case ToggleFloating | TogglePinned => LayoutFamily
  }

  lemma PanelOwned(n: Name, t: string)
    requires FamilyOf(n) == PanelFamily && t in Spellings(n)
    ensures Owner(Fingerprint(t)) == Some(n)
  {
  }

  lemma ZoomOwned(n: Name, t: string)
    requires FamilyOf(n) == ZoomFamily && t in Spellings(n)
    ensures Owner(Fingerprint(t)) == Some(n)
  {
  }

  lemma FocusOwned(n: Name, t: string)
    requires FamilyOf(n) == FocusFamily && t in Spellings(n)
    ensures Owner(Fingerprint(t)) == Some(n)
  {
  }

  lemma ViewOwned(n: Name, t: string)
    requires FamilyOf(n) == ViewFamily && t in Spellings(n)
    ensures Owner(Fingerprint(t)) == Some(n)
  {
  }

  lemma ScrollOwned(n: Name, t: string)
    requires FamilyOf(n) == ScrollFamily && t in Spellings(n)
    ensures Owner(Fingerprint(t)) == Some(n)
  {
  }

  lemma SizeOwned(n: Name, t: string)
    requires FamilyOf(n) == SizeFamily && t in Spellings(n)
    ensures Owner(Fingerprint(t)) == Some(n)
  {
  }

  lemma FoldOwned(n: Name, t: string)
    requires FamilyOf(n) == FoldFamily && t in Spellings(n)
    ensures Owner(Fingerprint(t)) == Some(n)
  {
  }

  lemma WorkspaceOwned(n: Name, t: string)
    requires FamilyOf(n) == WorkspaceFamily && t in Spellings(n)
    ensures Owner(Fingerprint(t)) == Some(n)
  {
  }

  lemma NextOwned(n: Name, t: string)
    requires FamilyOf(n) == NextFamily && t in Spellings(n)
    ensures Owner(Fingerprint(t)) == Some(n)
  {
  }

  lemma PrevOwned(n: Name, t: string)
    requires FamilyOf(n) == PrevFamily && t in Spellings(n)
    ensures Owner(Fingerprint(t)) == Some(n)
  {
  }

  lemma OverlayOwned(n: Name, t: string)
    requires FamilyOf(n) == OverlayFamily && t in Spellings(n)
    ensures Owner(Fingerprint(t)) == Some(n)
  {
  }

  lemma LayoutOwned(n: Name, t: string)
    requires FamilyOf(n) == LayoutFamily && t in Spellings(n)
    ensures Owner(Fingerprint(t)) == Some(n)
  {
  }

  lemma SplitOwned(n: Name, t: string)
    requires FamilyOf(n) == SplitFamily && t in Spellings(n)
    ensures Owner(Fingerprint(t)) == Some(n)
  {
  }

  lemma PlaceOwned(n: Name, t: string)
    requires FamilyOf(n) == PlaceFamily && t in Spellings(n)
    ensures Owner(Fingerprint(t)) == Some(n)
  {
  }

  lemma OtherOwned(n: Name, t: string)
    requires FamilyOf(n) == OtherFamily && t in Spellings(n)
    ensures Owner(Fingerprint(t)) == Some(n)
  {
  }

  lemma SpellingOwned(n: Name, t: string)
    requires t in Spellings(n)
    ensures Owner(Fingerprint(t)) == Some(n)
  {
    match FamilyOf(n)
    case PanelFamily => PanelOwned(n, t);
    case ZoomFamily => ZoomOwned(n, t);
    case FocusFamily => FocusOwned(n, t);
    case ViewFamily => ViewOwned(n, t);
    case ScrollFamily => ScrollOwned(n, t);
    case SizeFamily => SizeOwned(n, t);
    case FoldFamily => FoldOwned(n, t);
    case WorkspaceFamily => WorkspaceOwned(n, t);
    case NextFamily => NextOwned(n, t);
    case PrevFamily => PrevOwned(n, t);
    case OverlayFamily => OverlayOwned(n, t);
    case LayoutFamily => LayoutOwned(n, t);
    case SplitFamily => SplitOwned(n, t);
    case PlaceFamily => PlaceOwned(n, t);
    case OtherFamily => OtherOwned(n, t);
  }

  /** No string names two things. */
  lemma NamesApart(m: Name, n: Name, t: string)
    requires t in Spellings(m) && t in Spellings(n)
    ensures m == n
  {
    SpellingOwned(m, t);
    SpellingOwned(n, t);
  }

  lemma PanelVerbIs(t: string)
    requires PanelVerbOf(t).Some?
    ensures t in VerbSpellings(PanelVerbOf(t).value)
  {
  }

  lemma PanelVerbRead(v: Verb, t: string)
    requires VerbFamily(v) == PanelFamily && t in VerbSpellings(v)
    ensures PanelVerbOf(t).Some?
  {
  }

  lemma ZoomVerbIs(t: string)
    requires ZoomVerbOf(t).Some?
    ensures t in VerbSpellings(ZoomVerbOf(t).value)
  {
  }

  lemma ZoomVerbRead(v: Verb, t: string)
    requires VerbFamily(v) == ZoomFamily && t in VerbSpellings(v)
    ensures ZoomVerbOf(t).Some?
  {
  }

  lemma FocusVerbIs(t: string)
    requires FocusVerbOf(t).Some?
    ensures t in VerbSpellings(FocusVerbOf(t).value)
  {
  }

  lemma FocusVerbRead(v: Verb, t: string)
    requires VerbFamily(v) == FocusFamily && t in VerbSpellings(v)
    ensures FocusVerbOf(t).Some?
  {
  }

  lemma ViewVerbIs(t: string)
    requires ViewVerbOf(t).Some?
    ensures t in VerbSpellings(ViewVerbOf(t).value)
  {
  }

  lemma ViewVerbRead(v: Verb, t: string)
    requires VerbFamily(v) == ViewFamily && t in VerbSpellings(v)
    ensures ViewVerbOf(t).Some?
  {
  }

  lemma ScrollVerbIs(t: string)
    requires ScrollVerbOf(t).Some?
    ensures t in VerbSpellings(ScrollVerbOf(t).value)
  {
  }

  lemma ScrollVerbRead(v: Verb, t: string)
    requires VerbFamily(v) == ScrollFamily && t in VerbSpellings(v)
    ensures ScrollVerbOf(t).Some?
  {
  }

  lemma SizeVerbIs(t: string)
    requires SizeVerbOf(t).Some?
    ensures t in VerbSpellings(SizeVerbOf(t).value)
  {
  }

  lemma SizeVerbRead(v: Verb, t: string)
    requires VerbFamily(v) == SizeFamily && t in VerbSpellings(v)
    ensures SizeVerbOf(t).Some?
  {
  }

  lemma FoldVerbIs(t: string)
    requires FoldVerbOf(t).Some?
    ensures t in VerbSpellings(FoldVerbOf(t).value)
  {
  }

  lemma FoldVerbRead(v: Verb, t: string)
    requires VerbFamily(v) == FoldFamily && t in VerbSpellings(v)
    ensures FoldVerbOf(t).Some?
  {
  }

  lemma WorkspaceVerbIs(t: string)
    requires WorkspaceVerbOf(t).Some?
    ensures t in VerbSpellings(WorkspaceVerbOf(t).value)
  {
  }

  lemma WorkspaceVerbRead(v: Verb, t: string)
    requires VerbFamily(v) == WorkspaceFamily && t in VerbSpellings(v)
    ensures WorkspaceVerbOf(t).Some?
  {
  }

  lemma NextVerbIs(t: string)
    requires NextVerbOf(t).Some?
    ensures t in VerbSpellings(NextVerbOf(t).value)
  {
  }

  lemma NextVerbRead(v: Verb, t: string)
    requires VerbFamily(v) == NextFamily && t in VerbSpellings(v)
    ensures NextVerbOf(t).Some?
  {
  }

  lemma PrevVerbIs(t: string)
    requires PrevVerbOf(t).Some?
    ensures t in VerbSpellings(PrevVerbOf(t).value)
  {
  }

  lemma PrevVerbRead(v: Verb, t: string)
    requires VerbFamily(v) == PrevFamily && t in VerbSpellings(v)
    ensures PrevVerbOf(t).Some?
  {
  }

  lemma OverlayVerbIs(t: string)
    requires OverlayVerbOf(t).Some?
    ensures t in VerbSpellings(OverlayVerbOf(t).value)
  {
  }

  lemma OverlayVerbRead(v: Verb, t: string)
    requires VerbFamily(v) == OverlayFamily && t in VerbSpellings(v)
    ensures OverlayVerbOf(t).Some?
  {
  }

  lemma LayoutVerbIs(t: string)
    requires LayoutVerbOf(t).Some?
    ensures t in VerbSpellings(LayoutVerbOf(t).value)
  {
  }

  lemma LayoutVerbRead(v: Verb, t: string)
    requires VerbFamily(v) == LayoutFamily && t in VerbSpellings(v)
    ensures LayoutVerbOf(t).Some?
  {
  }

  lemma VerbIs(t: string)
    requires VerbOf(t).Some?
    ensures t in VerbSpellings(VerbOf(t).value)
  {
    if PanelVerbOf(t).Some? {
      PanelVerbIs(t);
    } else if ZoomVerbOf(t).Some? {
      ZoomVerbIs(t);
    } else if FocusVerbOf(t).Some? {
      FocusVerbIs(t);
    } else if ViewVerbOf(t).Some? {
      ViewVerbIs(t);
    } else if ScrollVerbOf(t).Some? {
      ScrollVerbIs(t);
    } else if SizeVerbOf(t).Some? {
      SizeVerbIs(t);
    } else if FoldVerbOf(t).Some? {
      FoldVerbIs(t);
    } else if WorkspaceVerbOf(t).Some? {
      WorkspaceVerbIs(t);
    } else if NextVerbOf(t).Some? {
      NextVerbIs(t);
    } else if PrevVerbOf(t).Some? {
      PrevVerbIs(t);
    } else if OverlayVerbOf(t).Some? {
      OverlayVerbIs(t);
    } else if LayoutVerbOf(t).Some? {
      LayoutVerbIs(t);
    }
  }

  lemma VerbRead(v: Verb, t: string)
    requires t in VerbSpellings(v)
    ensures VerbOf(t).Some?
  {
    if VerbFamily(v) == PanelFamily {
      PanelVerbRead(v, t);
    } else if VerbFamily(v) == ZoomFamily {
      ZoomVerbRead(v, t);
    } else if VerbFamily(v) == FocusFamily {
      FocusVerbRead(v, t);
    } else if VerbFamily(v) == ViewFamily {
      ViewVerbRead(v, t);
    } else if VerbFamily(v) == ScrollFamily {
      ScrollVerbRead(v, t);
    } else if VerbFamily(v) == SizeFamily {
      SizeVerbRead(v, t);
    } else if VerbFamily(v) == FoldFamily {
      FoldVerbRead(v, t);
    } else if VerbFamily(v) == WorkspaceFamily {
      WorkspaceVerbRead(v, t);
    } else if VerbFamily(v) == NextFamily {
      NextVerbRead(v, t);
    } else if VerbFamily(v) == PrevFamily {
      PrevVerbRead(v, t);
    } else if VerbFamily(v) == OverlayFamily {
      OverlayVerbRead(v, t);
    } else if VerbFamily(v) == LayoutFamily {
      LayoutVerbRead(v, t);
    }
  }

  /** A verb is read from exactly its spellings. */
  lemma VerbNames(t: string, v: Verb)
    ensures VerbOf(t) == Some(v) <==> t in VerbSpellings(v)
  {
    if VerbOf(t) == Some(v) {
      VerbIs(t);
    } else if t in VerbSpellings(v) {
      VerbRead(v, t);
      VerbIs(t);
      NamesApart(VerbName(v), VerbName(VerbOf(t).value), t);
    }
  }

  lemma ArgHeadIs(t: string)
    requires ArgHeadOf(t).Some?
    ensures t in HeadSpellings(ArgHeadOf(t).value)
  {
  }

  lemma ArgHeadRead(h: ArgHead, t: string)
    requires t in HeadSpellings(h)
    ensures ArgHeadOf(t).Some?
  {
  }

  lemma HeadNames(t: string, h: ArgHead)
    ensures ArgHeadOf(t) == Some(h) <==> t in HeadSpellings(h)
  {
    if ArgHeadOf(t) == Some(h) {
      ArgHeadIs(t);
    } else if t in HeadSpellings(h) {
      ArgHeadRead(h, t);
      ArgHeadIs(t);
      NamesApart(ArgName(h), ArgName(ArgHeadOf(t).value), t);
    }
  }

  predicate Names(n: Name, head: string) { n != CommandName && head in Spellings(n) }

  /** What a name does with an argument. */
  function NamedResult(n: Name, arg: Option<string>): Result<ChromeAction, ActionError>
    requires n != CommandName
  {
    match n
    case VerbName(v) => RejectArg(arg, Simple(v))
    case ArgName(h) => ParseArgument(h, arg)
    case PrevName => RejectArg(arg, JumpToPromptPrev)
    case NextName => RejectArg(arg, JumpToPromptNext)
  }

  /** The match on the head comes down to the table of names. */
  lemma CatalogByName(n: Name, head: string, arg: Option<string>)
    requires Names(n, head)
    ensures ParseCatalog(head, arg) == NamedResult(n, arg)
  {
    if ArgHeadOf(head).Some? {
      ArgHeadIs(head);
      NamesApart(n, ArgName(ArgHeadOf(head).value), head);
    } else {
      if n.ArgName? {
        ArgHeadRead(n.head, head);
      }
      if head in Spellings(PrevName) {
        NamesApart(n, PrevName, head);
      } else if head in Spellings(NextName) {
        NamesApart(n, NextName, head);
      } else {
        VerbNames(head, n.verb);
      }
    }
  }

  lemma PanelTextPlain(v: Verb)
    requires VerbFamily(v) == PanelFamily || VerbFamily(v) == ZoomFamily || VerbFamily(v) == FocusFamily
    ensures Plain(VerbText(v)) && 0 < |VerbText(v)| <= 40
  {
  }

  lemma ViewTextPlain(v: Verb)
    requires VerbFamily(v) == ViewFamily
    ensures Plain(VerbText(v)) && 0 < |VerbText(v)| <= 40
  {
  }

  lemma SizeTextPlain(v: Verb)
    requires VerbFamily(v) == SizeFamily || VerbFamily(v) == FoldFamily
    ensures Plain(VerbText(v)) && 0 < |VerbText(v)| <= 40
  {
  }

  lemma WorkspaceTextPlain(v: Verb)
    requires VerbFamily(v) == WorkspaceFamily
    ensures Plain(VerbText(v)) && 0 < |VerbText(v)| <= 40
  {
  }

  lemma NextTextPlain(v: Verb)
    requires VerbFamily(v) == NextFamily || VerbFamily(v) == PrevFamily || VerbFamily(v) == ScrollFamily
    ensures Plain(VerbText(v)) && 0 < |VerbText(v)| <= 40
  {
  }

  lemma OverlayTextPlain(v: Verb)
    requires VerbFamily(v) == OverlayFamily || VerbFamily(v) == LayoutFamily
    ensures Plain(VerbText(v)) && 0 < |VerbText(v)| <= 40
  {
  }

  lemma VerbTextPlain(v: Verb)
    ensures Plain(VerbText(v)) && 0 < |VerbText(v)| <= 40
  {
    match VerbFamily(v)
    case PanelFamily | ZoomFamily | FocusFamily => PanelTextPlain(v);
    case ViewFamily => ViewTextPlain(v);
    case SizeFamily | FoldFamily => SizeTextPlain(v);
    case WorkspaceFamily => WorkspaceTextPlain(v);
    case NextFamily | PrevFamily | ScrollFamily => NextTextPlain(v);
    case OverlayFamily | LayoutFamily => OverlayTextPlain(v);
  }

  /** The printer writes the first spelling. */
  lemma VerbTextFirst(v: Verb)
    ensures VerbSpellings(v)[0] == VerbText(v)
  {
  }

  lemma HeadTextFirst(h: ArgHead)
    ensures [HeadText(h)] <= HeadSpellings(h)
  {
  }

  // ---------------------------------------------------------------- round trip: the catalog

  /** Catalog spellings: lower-case letters, digits and underscores. */
  predicate Plain(s: string) {
    forall i :: 0 <= i < |s| ==> 'a' <= s[i] <= 'z' || s[i] == '_' || IsDigit(s[i])
  }

  lemma PlainFacts(s: string)
    requires Plain(s)
    ensures Trim(Rust, s) == s && Lower(s) == s && ByteLen(s) == |s| && Lacks(s, ':')
  {
    TrimOfTrimmed(Rust, s);
    ByteLenAscii(s);
  }

  lemma ParsePlain(t: string)
    requires Plain(t) && 0 < |t| <= MAX_ACTION_LEN && !IsCommandHead(t)
    ensures ParseAction(t) == ParseCatalog(t, None)
  {
    PlainFacts(t);
    IndexOfIs(t, ':', |t|);
  }

  lemma PairParts(head: string, arg: string)
    requires Plain(head) && Plain(arg) && head != [] && arg != []
    ensures Trim(Rust, WithArg(head, arg)) == WithArg(head, arg)
    ensures ByteLen(WithArg(head, arg)) == |head| + 1 + |arg|
    ensures Lower(WithArg(head, arg)) == WithArg(head, arg)
  {
    var t := WithArg(head, arg);
    TrimOfTrimmed(Rust, t);
    ByteLenAscii(t);
    LowerOfLower(t);
  }

  lemma HeadArgOfPair(head: string, arg: string)
    requires Lacks(head, ':')
    ensures HeadArg(WithArg(head, arg)) == (Trim(Rust, head), Some(Trim(Rust, arg)))
    ensures TailOf(WithArg(head, arg)) == Trim(Rust, arg)
  {
    var t := WithArg(head, arg);
    IndexOfIs(t, ':', |head|);
    assert t[..|head|] == head && t[|head| + 1..] == arg;
  }

  lemma ParsePair(head: string, arg: string)
    requires Plain(head) && Plain(arg) && head != [] && arg != []
    requires |head| + 1 + |arg| <= MAX_ACTION_LEN && !IsCommandHead(head)
    ensures ParseAction(WithArg(head, arg)) == ParseCatalog(head, Some(arg))
    ensures ByteLen(WithArg(head, arg)) == |head| + 1 + |arg|
  {
    PlainFacts(head);
    PlainFacts(arg);
    PairParts(head, arg);
    HeadArgOfPair(head, arg);
  }

  lemma DirRoundTrip(d: SplitDir)
    ensures Plain(DirText(d)) && 0 < |DirText(d)| <= 5
    ensures RequireDir(Some(DirText(d))) == Ok(d)
  {
    PlainFacts(DirText(d));
  }

  lemma NumberRoundTrip(n: nat, max: nat)
    requires 1 <= n <= max < 1000
    ensures Plain(Decimal(n)) && 0 < |Decimal(n)| <= 3
    ensures RequireNumber(Some(Decimal(n)), max) == Ok(n)
  {
    DecimalShort(n);
    ParseOfDecimal(n, MAX_U64);
  }

  lemma SimpleRoundTrip(v: Verb)
    ensures ParseAction(Canonical(Simple(v))) == Ok(Simple(v))
    ensures ByteLen(Canonical(Simple(v))) <= MAX_ACTION_LEN
  {
    VerbTextPlain(v);
    VerbTextNamed(v);
    ParsePlain(VerbText(v));
    PlainFacts(VerbText(v));
  }

  lemma VerbTextNamed(v: Verb)
    ensures ParseCatalog(VerbText(v), None) == Ok(Simple(v)) && !IsCommandHead(VerbText(v))
  {
    VerbTextFirst(v);
    FirstNameParses(v, VerbText(v));
  }

  lemma FirstNameParses(v: Verb, t: string)
    requires VerbSpellings(v)[0] == t
    ensures ParseCatalog(t, None) == Ok(Simple(v)) && !IsCommandHead(t)
  {
    FirstIn(t, VerbSpellings(v));
    VerbNameParses(v, t);
  }

  lemma FirstIn(t: string, s: seq<string>)
    requires s != [] && s[0] == t
    ensures t in s
  {
  }

  lemma VerbNameParses(v: Verb, t: string)
    requires t in VerbSpellings(v)
    ensures ParseCatalog(t, None) == Ok(Simple(v)) && !IsCommandHead(t)
  {
    NotCommandHead(VerbName(v), t);
    CatalogByName(VerbName(v), t, None);
  }

  lemma CommandHeads(t: string)
    ensures IsCommandHead(t) <==> t in Spellings(CommandName)
  {
  }

  lemma EmptyUnowned()
    ensures Owner(Fingerprint([])) == None
  {
  }

  lemma NotCommandHead(n: Name, t: string)
    requires n != CommandName && t in Spellings(n)
    ensures !IsCommandHead(t) && t != []
  {
    CommandHeads(t);
    if t in Spellings(CommandName) {
      NamesApart(n, CommandName, t);
    }
    SpellingOwned(n, t);
    EmptyUnowned();
  }

  function HeadText(h: ArgHead): string {
    match h
    case HeadGoto => "goto_split"
    case HeadNew => "new_split"
    case HeadResize => "resize_split"
    case HeadFocus => "focus"
    case HeadWorkspaceFocus => "workspace_focus"
    case HeadWorkspaceMove => "workspace_move"
    case HeadWorkspaceSwap => "workspace_swap"
    case HeadJump => "jump_to_prompt"
  }

  lemma HeadTextPlain(h: ArgHead)
    ensures Plain(HeadText(h)) && 0 < |HeadText(h)| <= 20
  {
  }

  lemma HeadTextNamed(h: ArgHead)
    ensures !IsCommandHead(HeadText(h)) && ArgHeadOf(HeadText(h)) == Some(h)
  {
    HeadTextFirst(h);
    HeadNames(HeadText(h), h);
    NotCommandHead(ArgName(h), HeadText(h));
  }

  lemma ArgumentRoundTrip(h: ArgHead, arg: string, a: ChromeAction)
    requires Plain(arg) && 0 < |arg| <= 20 && ParseArgument(h, Some(arg)) == Ok(a)
    ensures ParseAction(WithArg(HeadText(h), arg)) == Ok(a)
    ensures ByteLen(WithArg(HeadText(h), arg)) <= MAX_ACTION_LEN
  {
    HeadTextPlain(h);
    HeadTextNamed(h);
    ParsePair(HeadText(h), arg);
  }

  // ---------------------------------------------------------------- the command form

  /** An args document with the blanks on either side of its `--`. */
  datatype Document = Document(before: string, after: string, blob: string)

  /** Every way to write a `command:` action: blanks may surround the whole, the
      head and the target. */
  datatype CommandForm = CommandForm(margin: string, head: string, beforeColon: string, afterColon: string,
                                     target: string, args: Option<Document>, tail: string)

  function InvokeText(target: string, args: Option<Document>): string {
    match args
    case None => target
    case Some(d) => target + (d.before + ("--" + (d.after + d.blob)))
  }

  function Spelling(f: CommandForm): string {
    f.margin + (f.head + f.beforeColon + [':'] + (f.afterColon + InvokeText(f.target, f.args))) + f.tail
  }

  predicate InvokeOk(target: string, args: Option<Document>) {
    && NoSpace(Rust, target) && TargetOk(Lower(target))
    && (args.Some? ==>
          && AllSpace(Rust, args.value.before) && args.value.before != []
          && AllSpace(Rust, args.value.after) && args.value.after != []
          && DocumentOk(args.value.blob))
  }

  predicate FormOk(f: CommandForm) {
    && AllSpace(Rust, f.margin) && AllSpace(Rust, f.tail)
    && IsCommandHead(Lower(f.head)) && AllSpace(Rust, f.beforeColon) && AllSpace(Rust, f.afterColon)
    && InvokeOk(f.target, f.args)
  }

  function BlobOf(args: Option<Document>): Option<string> {
    match args
    case None => None
    case Some(d) => Some(d.blob)
  }

  /** A form's action: the target lowered, the document as written. */
  function Invoked(target: string, args: Option<Document>): ChromeAction { InvokeCommand(Lower(target), BlobOf(args)) }

  lemma InvokeTextTrimmed(target: string, args: Option<Document>)
    requires InvokeOk(target, args)
    ensures InvokeText(target, args) != [] && Trimmed(Rust, InvokeText(target, args))
    ensures Trim(Rust, InvokeText(target, args)) == InvokeText(target, args)
  {
    var text := InvokeText(target, args);
    assert text[0] == target[0];
    if args.Some? {
      assert text[|text| - 1] == args.value.blob[|args.value.blob| - 1];
    }
    TrimOfTrimmed(Rust, text);
  }

  lemma InvokeTextParses(target: string, args: Option<Document>)
    requires InvokeOk(target, args)
    ensures ParseInvoke(InvokeText(target, args)) == Ok(Invoked(target, args))
  {
    match args
    case None =>
      FirstSpaceIs(Rust, target, |target|);
      assert target[..|target|] == target;
    case Some(d) =>
      DocumentTail(target, d);
      SeparatorTail(d.before[1..], d.after, d.blob);
      ParseInvokeParts(InvokeText(target, args), target, d.before[1..] + ("--" + (d.after + d.blob)), d.blob);
  }

  lemma DocumentTail(target: string, d: Document)
    requires d.before != []
    ensures var text := InvokeText(target, Some(d));
            && |target| < |text| && text[|target|] == d.before[0] && text[..|target|] == target
            && text[|target| + 1..] == d.before[1..] + ("--" + (d.after + d.blob))
  {
  }

  lemma SeparatorTail(before: string, after: string, blob: string)
    requires AllSpace(Rust, before) && AllSpace(Rust, after) && after != [] && blob != [] && Trimmed(Rust, blob)
    ensures var rest := Trim(Rust, before + ("--" + (after + blob)));
            "--" <= rest && rest[2..] != [] && IsSpace(Rust, rest[2..][0]) && Trim(Rust, rest[2..]) == blob
  {
    var rest := "--" + (after + blob);
    assert rest[0] == '-' && rest[|rest| - 1] == blob[|blob| - 1];
    assert before + rest + [] == before + rest;
    TrimUnique(Rust, before, rest, []);
    assert rest[2..] == after + blob + [];
    TrimUnique(Rust, after, blob, []);
  }

  lemma ParseInvokeParts(tail: string, target: string, rest: string, blob: string)
    requires NoSpace(Rust, target) && TargetOk(Lower(target)) && DocumentOk(blob)
    requires |target| < |tail| && tail[..|target|] == target && IsSpace(Rust, tail[|target|])
    requires tail[|target| + 1..] == rest
    requires "--" <= Trim(Rust, rest) && Trim(Rust, rest)[2..] != [] && IsSpace(Rust, Trim(Rust, rest)[2..][0])
    requires Trim(Rust, Trim(Rust, rest)[2..]) == blob
    ensures ParseInvoke(tail) == Ok(InvokeCommand(Lower(target), Some(blob)))
  {
    FirstSpaceIs(Rust, tail, |target|);
  }

  lemma CommandHeadFacts(head: string)
    requires IsCommandHead(Lower(head))
    ensures head != [] && NoSpace(Rust, head) && Lacks(head, ':') && Trimmed(Rust, head)
  {
    assert Plain(Lower(head)) && Lower(head) != [];
    forall i | 0 <= i < |head| ensures !IsSpace(Rust, head[i]) && head[i] != ':' {
      LowerCharFixes(head[i]);
      assert Lower(head)[i] == LowerChar(head[i]);
    }
  }

  /** Splitting the lowered text at its colon is lowering the split. */
  lemma LoweredHeadArg(head: string, rest: string)
    requires Lacks(head, ':')
    ensures HeadArg(Lower(WithArg(head, rest))).0 == Lower(Trim(Rust, head))
    ensures TailOf(WithArg(head, rest)) == Trim(Rust, rest)
  {
    LowerConcat(head + [':'], rest);
    LowerConcat(head, [':']);
    assert Lower([':']) == [':'];
    forall i | 0 <= i < |head| ensures Lower(head)[i] != ':' {
      LowerCharFixes(head[i]);
    }
    HeadArgOfPair(Lower(head), Lower(rest));
    HeadArgOfPair(head, rest);
    TrimLower(Rust, head);
  }

  /** Around a command head, parsing comes down to the trimmed tail. */
  lemma ParseCommand(raw: string, head: string, rest: string)
    requires Trim(Rust, raw) == WithArg(head, rest) && Lacks(head, ':') && IsCommandHead(Lower(Trim(Rust, head)))
    ensures ParseAction(raw) == if ByteLen(Trim(Rust, raw)) > MAX_COMMAND_ACTION_LEN then Err(TooLong)
                                else ParseInvoke(Trim(Rust, rest))
  {
    LoweredHeadArg(head, rest);
  }

  lemma TrimSpelling(f: CommandForm)
    requires FormOk(f)
    ensures Trim(Rust, Spelling(f))
         == WithArg(f.head + f.beforeColon, f.afterColon + InvokeText(f.target, f.args))
  {
    var core := f.head + f.beforeColon + [':'] + (f.afterColon + InvokeText(f.target, f.args));
    CommandHeadFacts(f.head);
    InvokeTextTrimmed(f.target, f.args);
    assert core[0] == f.head[0];
    var text := InvokeText(f.target, f.args);
    assert core[|core| - 1] == text[|text| - 1];
    TrimUnique(Rust, f.margin, core, f.tail);
  }

  lemma PaddedHead(head: string, blanks: string)
    requires IsCommandHead(Lower(head)) && AllSpace(Rust, blanks)
    ensures Lacks(head + blanks, ':') && Trim(Rust, head + blanks) == head
  {
    CommandHeadFacts(head);
    BlanksLackColon(blanks);
    assert [] + head + blanks == head + blanks;
    TrimUnique(Rust, [], head, blanks);
  }

  lemma BlanksLackColon(blanks: string)
    requires AllSpace(Rust, blanks)
    ensures Lacks(blanks, ':')
  {
  }

  lemma PaddedTail(blanks: string, text: string)
    requires AllSpace(Rust, blanks) && Trimmed(Rust, text)
    ensures Trim(Rust, blanks + text) == text
  {
    assert blanks + text + [] == blanks + text;
    TrimUnique(Rust, blanks, text, []);
  }

  /** Every spelling of the form within the length bound is accepted, and parses
      to its lowered target and its unchanged document. */
  lemma CommandFormParses(f: CommandForm)
    requires FormOk(f) && ByteLen(Trim(Rust, Spelling(f))) <= MAX_COMMAND_ACTION_LEN
    ensures ParseAction(Spelling(f)) == Ok(Invoked(f.target, f.args))
  {
    var text := InvokeText(f.target, f.args);
    TrimSpelling(f);
    PaddedHead(f.head, f.beforeColon);
    InvokeTextTrimmed(f.target, f.args);
    PaddedTail(f.afterColon, text);
    InvokeTextParses(f.target, f.args);
    ParseCommand(Spelling(f), f.head + f.beforeColon, f.afterColon + text);
  }

  lemma LastOf(front: string, post: string)
    requires post != []
    ensures (front + post)[|front + post| - 1] == post[|post| - 1]
  {
  }

  /** A string whose last character is no blank ends in no blank margin. */
  lemma NoMargin(s: string, front: string, post: string)
    requires s == front + post && AllSpace(Rust, post) && s != [] && !IsSpace(Rust, s[|s| - 1])
    ensures post == [] && s == front
  {
    if post == [] {
      assert front + post == front;
    } else {
      LastOf(front, post);
    }
  }

  /** A string ending in a non-blank keeps its end when trimmed. */
  lemma TrimsInFront(s: string) returns (gap: string)
    requires s != [] && !IsSpace(Rust, s[|s| - 1])
    ensures s == gap + Trim(Rust, s) && AllSpace(Rust, gap)
    ensures Trim(Rust, s) != [] && Trimmed(Rust, Trim(Rust, s)) && Trim(Rust, s)[|Trim(Rust, s)| - 1] == s[|s| - 1]
  {
    var pre, post := TrimShape(Rust, s);
    NoMargin(s, pre + Trim(Rust, s), post);
    gap := pre;
    assert gap + [] == gap;
    if Trim(Rust, s) != [] {
      LastOf(gap, Trim(Rust, s));
    }
  }

  /** The blanks and the document after the `--` of an accepted tail. */
  lemma AfterDashes(rest: string) returns (after: string)
    requires "--" <= rest && !IsSpace(Rust, rest[|rest| - 1]) && rest[2..] != [] && IsSpace(Rust, rest[2..][0])
    ensures rest == "--" + (after + Trim(Rust, rest[2..])) && AllSpace(Rust, after) && after != []
    ensures Trim(Rust, rest[2..]) != [] && Trimmed(Rust, Trim(Rust, rest[2..]))
  {
    assert rest[2..][|rest[2..]| - 1] == rest[|rest| - 1];
    after := TrimsInFront(rest[2..]);
    assert rest == "--" + rest[2..];
    assert [] + Trim(Rust, rest[2..]) == Trim(Rust, rest[2..]);
  }

  /** What an accepted tail with a blank in it has passed. */
  lemma AcceptedTail(tail: string, i: nat, rest: string)
    requires i == FirstSpace(Rust, tail) < |tail| && rest == Trim(Rust, tail[i + 1..]) && ParseInvoke(tail).Ok?
    ensures NoSpace(Rust, tail[..i]) && TargetOk(Lower(tail[..i]))
    ensures "--" <= rest && rest[2..] != [] && IsSpace(Rust, rest[2..][0])
    ensures var blob := Trim(Rust, rest[2..]);
            && blob != [] && ByteLen(blob) <= MAX_INVOKE_ARGS_BYTES && ArgsJson.Outcome(blob).Ok?
            && ParseInvoke(tail) == Ok(InvokeCommand(Lower(tail[..i]), Some(blob)))
  {
  }

  /** The blanks before and after the `--` of a tail past its target. */
  lemma GapsOf(more: string, rest: string) returns (gap: string, after: string)
    requires more != [] && !IsSpace(Rust, more[|more| - 1])
    requires rest == Trim(Rust, more) && "--" <= rest && rest[2..] != [] && IsSpace(Rust, rest[2..][0])
    ensures AllSpace(Rust, gap) && AllSpace(Rust, after) && after != []
    ensures Trim(Rust, rest[2..]) != [] && Trimmed(Rust, Trim(Rust, rest[2..]))
    ensures more == gap + ("--" + (after + Trim(Rust, rest[2..])))
  {
    gap := TrimsInFront(more);
    after := AfterDashes(rest);
  }

  /** The document of a tail that passed the checks, with the blanks around its
      `--`. */
  lemma DocumentOf(tail: string, i: nat, rest: string) returns (d: Document)
    requires Trimmed(Rust, tail) && i < |tail| && IsSpace(Rust, tail[i]) && rest == Trim(Rust, tail[i + 1..])
    requires "--" <= rest && rest[2..] != [] && IsSpace(Rust, rest[2..][0])
    ensures d.blob == Trim(Rust, rest[2..]) && d.blob != [] && Trimmed(Rust, d.blob)
    ensures AllSpace(Rust, d.before) && d.before != [] && AllSpace(Rust, d.after) && d.after != []
    ensures tail == InvokeText(tail[..i], Some(d))
  {
    var more := tail[i + 1..];
    assert i + 1 < |tail| && more[|more| - 1] == tail[|tail| - 1];
    var gap, after := GapsOf(more, rest);
    d := Document([tail[i]] + gap, after, Trim(Rust, rest[2..]));
    RegroupTail(tail, i, gap, "--" + (after + d.blob));
  }

  lemma RegroupTail(tail: string, i: nat, gap: string, rest: string)
    requires i < |tail| && tail[i + 1..] == gap + rest
    ensures tail == tail[..i] + (([tail[i]] + gap) + rest)
  {
    assert tail == tail[..i] + ([tail[i]] + tail[i + 1..]);
    assert [tail[i]] + (gap + rest) == ([tail[i]] + gap) + rest;
  }

  lemma InvokeHasForm(tail: string) returns (target: string, args: Option<Document>)
    requires Trimmed(Rust, tail) && ParseInvoke(tail).Ok?
    ensures InvokeOk(target, args) && tail == InvokeText(target, args)
    ensures ParseInvoke(tail) == Ok(Invoked(target, args))
  {
    var i := FirstSpace(Rust, tail);
    target := tail[..i];
    if i == |tail| {
      args := None;
      assert target == tail;
    } else {
      var rest := Trim(Rust, tail[i + 1..]);
      AcceptedTail(tail, i, rest);
      var d := DocumentOf(tail, i, rest);
      args := Some(d);
    }
  }

  lemma CatalogInvokesNothing(head: string, arg: Option<string>)
    requires ParseCatalog(head, arg).Ok?
    ensures !ParseCatalog(head, arg).value.InvokeCommand?
  {
  }

  lemma InvokedThroughHead(raw: string)
    requires ParseAction(raw).Ok? && ParseAction(raw).value.InvokeCommand?
    ensures IsCommandHead(HeadArg(Lower(Trim(Rust, raw))).0) && ParseInvoke(TailOf(Trim(Rust, raw))).Ok?
  {
    var (head, arg) := HeadArg(Lower(Trim(Rust, raw)));
    if !IsCommandHead(head) {
      CatalogInvokesNothing(head, arg);
    }
  }

  lemma EmptyTailRefused()
    ensures ParseInvoke([]).Err?
  {
  }

  /** An accepted command splits at its colon around a command head. */
  lemma CommandSplits(raw: string) returns (head: string, rest: string)
    requires ParseAction(raw).Ok? && ParseAction(raw).value.InvokeCommand?
    ensures Trim(Rust, raw) == WithArg(head, rest) && Lacks(head, ':') && IsCommandHead(Lower(Trim(Rust, head)))
  {
    InvokedThroughHead(raw);
    EmptyTailRefused();
    head, rest := ColonSplit(Trim(Rust, raw));
    LoweredHeadArg(head, rest);
  }

  lemma ColonSplit(t: string) returns (head: string, rest: string)
    requires TailOf(t) != []
    ensures t == WithArg(head, rest) && Lacks(head, ':')
  {
    var i := IndexOf(t, ':');
    head, rest := t[..i], t[i + 1..];
  }

  /** Every accepted string that invokes a command has the form, so nothing else
      is accepted: the target is lowered, and the document keeps every byte. */
  lemma CommandHasForm(raw: string) returns (f: CommandForm)
    requires ParseAction(raw).Ok? && ParseAction(raw).value.InvokeCommand?
    ensures FormOk(f) && raw == Spelling(f) && ByteLen(Trim(Rust, raw)) <= MAX_COMMAND_ACTION_LEN
    ensures ParseAction(raw) == Ok(Invoked(f.target, f.args))
  {
    var head, rest := CommandSplits(raw);
    ParseCommand(raw, head, rest);
    var pre, post := TrimShape(Rust, raw);
    var a, b := TrimShape(Rust, head);
    var c, d := TrimShape(Rust, rest);
    var target, args := InvokeHasForm(Trim(Rust, rest));
    f := CommandForm(pre + a, Trim(Rust, head), b, c, target, args, d + post);
    Reassemble(pre, a, Trim(Rust, head), b, c, Trim(Rust, rest), d, post);
  }

  lemma Reassemble(pre: string, a: string, head: string, b: string, c: string, text: string, d: string, post: string)
    ensures pre + ((a + head + b) + [':'] + (c + text + d)) + post
         == (pre + a) + (head + b + [':'] + (c + text)) + (d + post)
  {
  }

  /** A binding with an args document keeps the document as written. */
  lemma CommandKeepsArgs(raw: string, t: string, blob: string) returns (f: CommandForm)
    requires ParseAction(raw) == Ok(InvokeCommand(t, Some(blob)))
    ensures FormOk(f) && raw == Spelling(f) && f.args.Some? && f.args.value.blob == blob && Lower(f.target) == t
  {
    f := CommandHasForm(raw);
  }

  /** A binding without one is its head and target among blanks. */
  lemma CommandWithoutArgs(raw: string, t: string) returns (f: CommandForm)
    requires ParseAction(raw) == Ok(InvokeCommand(t, None))
    ensures FormOk(f) && Lower(f.target) == t
    ensures raw == f.margin + (f.head + f.beforeColon + [':'] + (f.afterColon + f.target)) + f.tail
  {
    f := CommandHasForm(raw);
  }

  // ---------------------------------------------------------------- round trip: commands

  function PlainCommand(head: string, target: string, args: Option<string>): string {
    match args
    case None => WithArg(head, target)
    case Some(blob) => WithArg(head, target + " -- " + blob)
  }

  /** The canonical spacing: no blanks but one on each side of `--`. */
  function PlainForm(head: string, target: string, args: Option<string>): CommandForm {
    CommandForm([], head, [], [], target,
                match args case None => None case Some(blob) => Some(Document(" ", " ", blob)), [])
  }

  lemma PlainSpelling(head: string, target: string, args: Option<string>)
    ensures Spelling(PlainForm(head, target, args)) == PlainCommand(head, target, args)
    ensures BlobOf(PlainForm(head, target, args).args) == args
    ensures WithArg(head + [], [] + InvokeText(target, PlainForm(head, target, args).args))
         == PlainCommand(head, target, args)
  {
    match args
    case None =>
    case Some(blob) => assert target + " -- " + blob == target + (" " + ("--" + (" " + blob)));
  }

  lemma PlainCommandParses(head: string, target: string, args: Option<string>)
    requires IsCommandHead(Lower(head)) && NoSpace(Rust, target) && TargetOk(Lower(target))
    requires args.Some? ==> DocumentOk(args.value)
    requires ByteLen(PlainCommand(head, target, args)) <= MAX_COMMAND_ACTION_LEN
    ensures ParseAction(PlainCommand(head, target, args)) == Ok(InvokeCommand(Lower(target), args))
  {
    PlainSpelling(head, target, args);
    TrimSpelling(PlainForm(head, target, args));
    CommandFormParses(PlainForm(head, target, args));
  }

  /** Parsing the canonical spelling of any action the parser returns gives the
      action back, and the spelling fits the parser's own bounds. */
  lemma ParseOfCanonical(a: ChromeAction)
    requires ValidAction(a)
    ensures ParseAction(Canonical(a)) == Ok(a)
    ensures ByteLen(Canonical(a)) <= if a.InvokeCommand? then MAX_COMMAND_ACTION_LEN else MAX_ACTION_LEN
  {
    match a
    case Simple(v) => SimpleRoundTrip(v);
    case InvokeCommand(target, args) => CommandRoundTrip(target, args);
    case JumpToPromptPrev => ArgumentRoundTrip(HeadJump, "prev", a);
    case JumpToPromptNext => ArgumentRoundTrip(HeadJump, "next", a);
    case FocusId(_) => NumberedRoundTrip(a);
    case WorkspaceFocus(_) => NumberedRoundTrip(a);
    case WorkspaceMove(_) => NumberedRoundTrip(a);
    case WorkspaceSwap(_) => NumberedRoundTrip(a);
    case _ => DirectedRoundTrip(a);
  }

  lemma DirectedRoundTrip(a: ChromeAction)
    requires a.GotoSplit? || a.NewSplit? || a.ResizeSplit?
    ensures ParseAction(Canonical(a)) == Ok(a) && ByteLen(Canonical(a)) <= MAX_ACTION_LEN
  {
    DirRoundTrip(a.dir);
    var h := if a.GotoSplit? then HeadGoto else if a.NewSplit? then HeadNew else HeadResize;
    ArgumentRoundTrip(h, DirText(a.dir), a);
  }

  lemma NumberedRoundTrip(a: ChromeAction)
    requires ValidAction(a) && (a.FocusId? || a.WorkspaceFocus? || a.WorkspaceMove? || a.WorkspaceSwap?)
    ensures ParseAction(Canonical(a)) == Ok(a) && ByteLen(Canonical(a)) <= MAX_ACTION_LEN
  {
    if a.FocusId? {
      NumberRoundTrip(a.id, MAX_FOCUS_ID);
      ArgumentRoundTrip(HeadFocus, Decimal(a.id), a);
    } else {
      var h := if a.WorkspaceFocus? then HeadWorkspaceFocus
               else if a.WorkspaceMove? then HeadWorkspaceMove else HeadWorkspaceSwap;
      NumberRoundTrip(a.index, MAX_WORKSPACE_INDEX);
      ArgumentRoundTrip(h, Decimal(a.index), a);
    }
  }

  lemma CommandRoundTrip(target: string, args: Option<string>)
    requires ValidAction(InvokeCommand(target, args))
    ensures ParseAction(Canonical(InvokeCommand(target, args))) == Ok(InvokeCommand(target, args))
    ensures ByteLen(Canonical(InvokeCommand(target, args))) <= MAX_COMMAND_ACTION_LEN
  {
    CommandWord();
    LowerOfLower(target);
    match args
    case None => BareCommandRoundTrip("command", target);
    case Some(blob) => ArgsCommandRoundTrip("command", target, blob);
  }

  lemma CommandWord()
    ensures IsCommandHead(Lower("command")) && IsAscii("command") && NoSpace(Rust, "command") && Lacks("command", ':')
  {
    LowerOfLower("command");
  }

  lemma BareCommandRoundTrip(head: string, target: string)
    requires IsCommandHead(Lower(head)) && |head| <= 7 && IsAscii(head) && NoSpace(Rust, head) && Lacks(head, ':')
    requires TargetOk(target) && NoSpace(Rust, target) && Lower(target) == target
    ensures ParseAction(WithArg(head, target)) == Ok(InvokeCommand(target, None))
    ensures ByteLen(WithArg(head, target)) <= MAX_COMMAND_ACTION_LEN
  {
    CommandLength(head, target);
    PlainCommandParses(head, target, None);
  }

  lemma ArgsCommandRoundTrip(head: string, target: string, blob: string)
    requires IsCommandHead(Lower(head)) && |head| <= 7 && IsAscii(head) && NoSpace(Rust, head) && Lacks(head, ':')
    requires TargetOk(target) && NoSpace(Rust, target) && Lower(target) == target && DocumentOk(blob)
    ensures ParseAction(WithArg(head, target + " -- " + blob)) == Ok(InvokeCommand(target, Some(blob)))
    ensures ByteLen(WithArg(head, target + " -- " + blob)) <= MAX_COMMAND_ACTION_LEN
  {
    TailLength(target, blob);
    CommandLength(head, target + " -- " + blob);
    PlainCommandParses(head, target, Some(blob));
  }

  lemma TailLength(target: string, blob: string)
    ensures ByteLen(target + " -- " + blob) == ByteLen(target) + 4 + ByteLen(blob)
  {
    ByteLenConcat(target + " -- ", blob);
    ByteLenConcat(target, " -- ");
    ByteLenAscii(" -- ");
  }

  lemma CommandLength(head: string, tail: string)
    requires IsAscii(head)
    ensures ByteLen(WithArg(head, tail)) == |head| + 1 + ByteLen(tail)
  {
    ByteLenConcat(head + [':'], tail);
    ByteLenAscii(head + [':']);
  }

  /** Printing then parsing what was parsed is the identity, for every accepted
      string. */
  lemma CanonicalIsStable(raw: string)
    requires ParseAction(raw).Ok?
    ensures ParseAction(Canonical(ParseAction(raw).value)) == ParseAction(raw)
  {
    ParsedIsValid(raw);
    ParseOfCanonical(ParseAction(raw).value);
  }

  /** So two parsed actions share a canonical spelling only if they are equal. */
  lemma CanonicalInjective(a: ChromeAction, b: ChromeAction)
    requires ValidAction(a) && ValidAction(b) && Canonical(a) == Canonical(b)
    ensures a == b
  {
    ParseOfCanonical(a);
    ParseOfCanonical(b);
  }
}
