/** The action strings of crates/bitty-config/src/keymap.rs taken whole: which
    spellings name which action, and why every other string is refused. */
module ActionStrings {
  import opened Wrappers
  import opened Text
  import opened Actions
  import ArgsJson

  // ---------------------------------------------------------------- the catalog, exactly

  /** An argument-free action takes none, or an empty one after a colon. */
  predicate NoArgument(arg: Option<string>) { arg.None? || arg.value == [] }

  /** One direction word, in any case, among blanks. */
  predicate Directs(arg: Option<string>, d: SplitDir) { arg.Some? && Lower(Trim(Rust, arg.value)) == DirText(d) }

  /** One number in range. */
  ghost predicate Counts(arg: Option<string>, n: nat, max: nat) {
    arg.Some? && NumberWord(arg.value, n) && 1 <= n <= max
  }

  ghost predicate NoCount(arg: Option<string>, max: nat) { forall k: nat :: !Counts(arg, k, max) }

  const PREV_WORDS := [Some("prev"), Some("previous"), Some("up")]
  const NEXT_WORDS := [Some("next"), Some("down")]

  /** A name and an argument spell action `a`. */
  ghost predicate SpellsAs(n: Name, arg: Option<string>, a: ChromeAction) {
    match a
    case Simple(v) => n == VerbName(v) && NoArgument(arg)
    case GotoSplit(d) => n == ArgName(HeadGoto) && Directs(arg, d)
    case NewSplit(d) => n == ArgName(HeadNew) && Directs(arg, d)
    case ResizeSplit(d) => n == ArgName(HeadResize) && Directs(arg, d)
    case FocusId(k) => n == ArgName(HeadFocus) && Counts(arg, k, 256)
    case WorkspaceFocus(k) => n == ArgName(HeadWorkspaceFocus) && Counts(arg, k, 16)
    case WorkspaceMove(k) => n == ArgName(HeadWorkspaceMove) && Counts(arg, k, 16)
    case WorkspaceSwap(k) => n == ArgName(HeadWorkspaceSwap) && Counts(arg, k, 16)
    case JumpToPromptPrev => (n == PrevName && NoArgument(arg)) || (n == ArgName(HeadJump) && arg in PREV_WORDS)
    case JumpToPromptNext => (n == NextName && NoArgument(arg)) || (n == ArgName(HeadJump) && arg in NEXT_WORDS)
    case InvokeCommand(_, _) => false
  }

  /** A lowered head and argument spell action `a`. */
  ghost predicate Spells(head: string, arg: Option<string>, a: ChromeAction) {
    exists n :: Names(n, head) && SpellsAs(n, arg, a)
  }

  predicate TakesDirection(n: Name) { n in {ArgName(HeadGoto), ArgName(HeadNew), ArgName(HeadResize)} }

  predicate TakesNumber(n: Name) { n.ArgName? && !TakesDirection(n) && n.head != HeadJump }

  /** Why a name refuses an argument. */
  ghost predicate Refuses(n: Name, arg: Option<string>, e: ActionError) {
    match e
    case TakesNoArgument => !n.ArgName? && !NoArgument(arg)
    case NeedsDirection =>
      || (TakesDirection(n) && NoArgument(arg))
      || (n == ArgName(HeadJump) && arg !in PREV_WORDS && arg !in NEXT_WORDS)
    case UnknownDirection(other) =>
      && TakesDirection(n) && !NoArgument(arg) && other == Lower(Trim(Rust, arg.value))
      && forall d :: !Directs(arg, d)
    case NeedsNumber => TakesNumber(n) && NoCount(arg, if n.head == HeadFocus then 256 else 16)
    case _ => false
  }

  ghost predicate Nameless(head: string) { forall n :: !Names(n, head) }

  /** Why the catalog refuses a head and argument. */
  ghost predicate CatalogRefuses(head: string, arg: Option<string>, e: ActionError) {
    if Nameless(head) then e == UnknownAction
    else exists n :: Names(n, head) && Refuses(n, arg, e)
  }

  lemma NamelessIsUnknown(head: string, arg: Option<string>)
    requires Nameless(head)
    ensures ParseCatalog(head, arg) == Err(UnknownAction)
  {
    if ArgHeadOf(head).Some? {
      ArgHeadIs(head);
      NotNameless(ArgName(ArgHeadOf(head).value), head);
    } else if VerbOf(head).Some? {
      VerbIs(head);
      NotNameless(VerbName(VerbOf(head).value), head);
    }
    PromptHeadsNamed(head);
  }

  lemma NotNameless(n: Name, head: string)
    requires Names(n, head)
    ensures !Nameless(head)
  {
  }

  lemma PromptHeadsNamed(head: string)
    requires Nameless(head)
    ensures head != "jump_to_prompt_prev" && head != "prompt_prev"
    ensures head != "jump_to_prompt_next" && head != "prompt_next"
  {
    assert !Names(PrevName, head) && !Names(NextName, head);
  }

  lemma DirectionExactly(arg: Option<string>, d: SplitDir)
    ensures RequireDir(arg) == Ok(d) <==> Directs(arg, d)
    ensures RequireDir(arg) == Err(NeedsDirection) <==> NoArgument(arg)
  {
    assert Trim(Rust, []) == [] && Lower([]) == [];
    DirTextShape(d);
  }

  lemma DirTextShape(d: SplitDir)
    ensures DirText(d) != []
  {
  }

  lemma UnknownDirectionExactly(arg: Option<string>, other: string)
    ensures RequireDir(arg) == Err(UnknownDirection(other))
       <==> !NoArgument(arg) && other == Lower(Trim(Rust, arg.value)) && forall d :: !Directs(arg, d)
  {
    if RequireDir(arg).Ok? {
      DirectionExactly(arg, RequireDir(arg).value);
    }
    forall d | Directs(arg, d) ensures RequireDir(arg).Ok? {
      DirectionExactly(arg, d);
    }
  }

  lemma CountExactly(arg: Option<string>, max: nat, n: nat)
    requires max <= MAX_U64
    ensures RequireNumber(arg, max) == Ok(n) <==> Counts(arg, n, max)
  {
    if arg.Some? {
      NumberExactly(arg.value, MAX_U64, n);
      if NumberWord(arg.value, n) {
        assert arg.value != [];
      }
    }
  }

  lemma NeedsNumberExactly(arg: Option<string>, max: nat)
    requires max <= MAX_U64
    ensures RequireNumber(arg, max) == Err(NeedsNumber) <==> NoCount(arg, max)
  {
    if RequireNumber(arg, max).Ok? {
      CountExactly(arg, max, RequireNumber(arg, max).value);
    }
    forall k: nat | Counts(arg, k, max) ensures RequireNumber(arg, max).Ok? {
      CountExactly(arg, max, k);
    }
  }

  lemma DirectedExactly(h: ArgHead, arg: Option<string>, a: ChromeAction)
    requires TakesDirection(ArgName(h))
    ensures ParseArgument(h, arg) == Ok(a) <==> SpellsAs(ArgName(h), arg, a)
  {
    forall d ensures RequireDir(arg) == Ok(d) <==> Directs(arg, d) {
      DirectionExactly(arg, d);
    }
  }

  lemma CountedExactly(h: ArgHead, arg: Option<string>, a: ChromeAction)
    requires TakesNumber(ArgName(h))
    ensures ParseArgument(h, arg) == Ok(a) <==> SpellsAs(ArgName(h), arg, a)
  {
    var max := if h == HeadFocus then MAX_FOCUS_ID else MAX_WORKSPACE_INDEX;
    forall k: nat ensures RequireNumber(arg, max) == Ok(k) <==> Counts(arg, k, max) {
      CountExactly(arg, max, k);
    }
  }

  lemma NamedExactly(n: Name, arg: Option<string>, a: ChromeAction)
    requires n != CommandName
    ensures NamedResult(n, arg) == Ok(a) <==> SpellsAs(n, arg, a)
  {
    if TakesDirection(n) {
      DirectedExactly(n.head, arg, a);
    } else if TakesNumber(n) {
      CountedExactly(n.head, arg, a);
    }
  }

  lemma NamedRefusal(n: Name, arg: Option<string>, e: ActionError)
    requires n != CommandName
    ensures NamedResult(n, arg) == Err(e) <==> Refuses(n, arg, e)
  {
    if TakesDirection(n) {
      DirectedRefusal(n.head, arg, e);
    } else if TakesNumber(n) {
      CountedRefusal(n.head, arg, e);
    }
  }

  lemma CountedRefusal(h: ArgHead, arg: Option<string>, e: ActionError)
    requires TakesNumber(ArgName(h))
    ensures ParseArgument(h, arg) == Err(e) <==> Refuses(ArgName(h), arg, e)
  {
    NeedsNumberExactly(arg, if h == HeadFocus then MAX_FOCUS_ID else MAX_WORKSPACE_INDEX);
  }

  lemma DirectedRefusal(h: ArgHead, arg: Option<string>, e: ActionError)
    requires TakesDirection(ArgName(h))
    ensures ParseArgument(h, arg) == Err(e) <==> Refuses(ArgName(h), arg, e)
  {
    DirectionExactly(arg, ToLeft);
    if e.UnknownDirection? {
      UnknownDirectionExactly(arg, e.other);
    }
  }

  /** The catalog gives an action for exactly its spellings: any of its names,
      with no argument, one direction word or one number in range. */
  lemma CatalogExactly(head: string, arg: Option<string>, a: ChromeAction)
    ensures ParseCatalog(head, arg) == Ok(a) <==> Spells(head, arg, a)
  {
    if Nameless(head) {
      NamelessIsUnknown(head, arg);
    } else {
      var n: Name :| Names(n, head);
      CatalogByName(n, head, arg);
      NamedExactly(n, arg, a);
      forall m | Names(m, head) ensures m == n {
        NamesApart(m, n, head);
      }
    }
  }

  /** And it refuses everything else, each for its own reason. */
  lemma CatalogRefusesExactly(head: string, arg: Option<string>, e: ActionError)
    ensures ParseCatalog(head, arg) == Err(e) <==> CatalogRefuses(head, arg, e)
  {
    if Nameless(head) {
      NamelessIsUnknown(head, arg);
    } else {
      var n: Name :| Names(n, head);
      CatalogByName(n, head, arg);
      NamedRefusal(n, arg, e);
      forall m | Names(m, head) ensures m == n {
        NamesApart(m, n, head);
      }
    }
  }

  // ---------------------------------------------------------------- every string, exactly

  /** A head, and perhaps a colon with its argument, among blanks; every string
      is made of such parts. */
  datatype Parts = Parts(margin: string, head: string, gap: string, arg: Option<Argument>, tail: string)

  datatype Argument = Argument(blanks: string, text: string)

  function ArgumentText(arg: Option<Argument>): string {
    match arg
    case None => []
    case Some(a) => [':'] + (a.blanks + a.text)
  }

  function Whole(p: Parts): string { p.margin + ((p.head + p.gap) + ArgumentText(p.arg)) + p.tail }

  predicate PartsOk(p: Parts) {
    && AllSpace(Rust, p.margin) && AllSpace(Rust, p.gap) && AllSpace(Rust, p.tail)
    && Trimmed(Rust, p.head) && Lacks(p.head, ':')
    && (p.head == [] || p.arg.None? ==> p.gap == [])
    && (p.arg.Some? ==> AllSpace(Rust, p.arg.value.blanks) && Trimmed(Rust, p.arg.value.text))
  }

  function LoweredText(arg: Option<Argument>): Option<string> {
    match arg
    case None => None
    case Some(a) => Some(Lower(a.text))
  }

  function RawText(arg: Option<Argument>): string {
    match arg
    case None => []
    case Some(a) => a.text
  }

  lemma WholeWithoutColon(p: Parts)
    requires PartsOk(p) && p.arg.None?
    ensures Trim(Rust, Whole(p)) == p.head
    ensures HeadArg(Lower(p.head)) == (Lower(p.head), None) && TailOf(p.head) == []
  {
    assert (p.head + p.gap) + [] == p.head;
    TrimUnique(Rust, p.margin, p.head, p.tail);
    IndexOfIs(p.head, ':', |p.head|);
    LowerLacksColon(p.head);
    IndexOfIs(Lower(p.head), ':', |p.head|);
  }

  lemma LowerLacksColon(s: string)
    requires Lacks(s, ':')
    ensures Lacks(Lower(s), ':')
  {
    forall i | 0 <= i < |s| ensures Lower(s)[i] != ':' {
      LowerCharFixes(s[i]);
    }
  }

  /** With a colon, the trimmed text keeps the head, its gap and the colon, and
      whatever follows trims to the argument's text. */
  lemma WholeWithColon(p: Parts) returns (rest: string)
    requires PartsOk(p) && p.arg.Some?
    ensures Trim(Rust, Whole(p)) == WithArg(p.head + p.gap, rest) && Trim(Rust, rest) == p.arg.value.text
  {
    var a, front := p.arg.value, p.head + p.gap;
    var core;
    if a.text == [] {
      rest := [];
      core := WithArg(front, rest);
      assert Whole(p) == p.margin + core + (a.blanks + p.tail);
      ColonCoreTrimmed(p.head, p.gap, rest);
      TrimUnique(Rust, p.margin, core, a.blanks + p.tail);
    } else {
      rest := a.blanks + a.text;
      core := WithArg(front, rest);
      assert front + ([':'] + rest) == core;
      ColonCoreTrimmed(p.head, p.gap, rest);
      TrimUnique(Rust, p.margin, core, p.tail);
      PaddedTail(a.blanks, a.text);
    }
  }

  lemma ColonCoreTrimmed(head: string, gap: string, rest: string)
    requires Trimmed(Rust, head) && (head == [] ==> gap == [])
    requires rest != [] ==> !IsSpace(Rust, rest[|rest| - 1])
    ensures var core := WithArg(head + gap, rest); core != [] && Trimmed(Rust, core)
  {
    var core := WithArg(head + gap, rest);
    assert core[0] == if head == [] then ':' else head[0];
    assert core[|core| - 1] == if rest == [] then ':' else rest[|rest| - 1];
  }

  /** Reading the parts back: the parser's head, argument and original-case tail. */
  lemma PartsRead(p: Parts)
    requires PartsOk(p)
    ensures HeadArg(Lower(Trim(Rust, Whole(p)))) == (Lower(p.head), LoweredText(p.arg))
    ensures TailOf(Trim(Rust, Whole(p))) == RawText(p.arg)
    ensures Trim(Rust, Whole(p)) == [] <==> p.head == [] && p.arg.None?
  {
    if p.arg.None? {
      WholeWithoutColon(p);
    } else {
      var rest := WholeWithColon(p);
      ColonRead(p.head, p.gap, rest);
    }
  }

  lemma LowerPair(front: string, rest: string)
    ensures Lower(WithArg(front, rest)) == WithArg(Lower(front), Lower(rest))
  {
    LowerConcat(front + [':'], rest);
    LowerConcat(front, [':']);
    assert Lower([':']) == [':'];
  }

  lemma TrimFront(head: string, gap: string)
    requires Trimmed(Rust, head) && AllSpace(Rust, gap)
    ensures Trim(Rust, head + gap) == head
  {
    assert [] + head + gap == head + gap;
    TrimUnique(Rust, [], head, gap);
  }

  lemma LacksPadded(head: string, gap: string)
    requires Lacks(head, ':') && AllSpace(Rust, gap)
    ensures Lacks(head + gap, ':')
  {
    BlanksLackColon(gap);
  }

  lemma ColonRead(head: string, gap: string, rest: string)
    requires Trimmed(Rust, head) && Lacks(head, ':') && AllSpace(Rust, gap)
    ensures HeadArg(Lower(WithArg(head + gap, rest))) == (Lower(head), Some(Lower(Trim(Rust, rest))))
    ensures TailOf(WithArg(head + gap, rest)) == Trim(Rust, rest)
  {
    var front := head + gap;
    LacksPadded(head, gap);
    LowerLacksColon(front);
    LowerPair(front, rest);
    HeadArgOfPair(Lower(front), Lower(rest));
    HeadArgOfPair(front, rest);
    TrimLower(Rust, front);
    TrimLower(Rust, rest);
    TrimFront(head, gap);
  }

  /** Every string has parts. */
  lemma HasParts(raw: string) returns (p: Parts)
    ensures PartsOk(p) && Whole(p) == raw
  {
    var margin, tail := TrimShape(Rust, raw);
    p := PartsAmong(margin, Trim(Rust, raw), tail);
  }

  lemma PartsAmong(margin: string, t: string, tail: string) returns (p: Parts)
    requires AllSpace(Rust, margin) && AllSpace(Rust, tail) && Trimmed(Rust, t)
    ensures PartsOk(p) && Whole(p) == margin + t + tail
  {
    var i := IndexOf(t, ':');
    if i == |t| {
      p := BareParts(margin, t, tail);
    } else {
      p := PartsAround(margin, t[..i], t[i + 1..], tail);
      CutAt(t, i);
    }
  }

  lemma CutAt(t: string, i: nat)
    requires i < |t| && t[i] == ':'
    ensures t == t[..i] + ([':'] + t[i + 1..])
  {
  }

  lemma BareParts(margin: string, head: string, tail: string) returns (p: Parts)
    requires AllSpace(Rust, margin) && AllSpace(Rust, tail) && Trimmed(Rust, head) && Lacks(head, ':')
    ensures PartsOk(p) && Whole(p) == margin + head + tail
  {
    p := Parts(margin, head, [], None, tail);
    assert (head + []) + [] == head;
  }

  lemma PartsAround(margin: string, front: string, rest: string, tail: string) returns (p: Parts)
    requires AllSpace(Rust, margin) && AllSpace(Rust, tail) && Lacks(front, ':')
    ensures PartsOk(p) && Whole(p) == margin + (front + ([':'] + rest)) + tail
  {
    var a, b := TrimShape(Rust, front);
    var c, d := TrimShape(Rust, rest);
    p := JoinParts(margin, a, Trim(Rust, front), b, c, Trim(Rust, rest), d, tail);
  }

  lemma JoinParts(margin: string, a: string, head: string, b: string, c: string, text: string, d: string, tail: string)
    returns (p: Parts)
    requires AllSpace(Rust, margin) && AllSpace(Rust, a) && AllSpace(Rust, b) && AllSpace(Rust, c)
    requires AllSpace(Rust, d) && AllSpace(Rust, tail)
    requires Trimmed(Rust, head) && Lacks(a + head + b, ':') && Trimmed(Rust, text)
    ensures PartsOk(p) && Whole(p) == margin + ((a + head + b) + ([':'] + (c + text + d))) + tail
  {
    LacksInner(a, head, b);
    if head == [] {
      p := Parts(margin + a + b, head, [], Some(Argument(c, text)), d + tail);
    } else {
      p := Parts(margin + a, head, b, Some(Argument(c, text)), d + tail);
    }
  }

  lemma LacksInner(a: string, s: string, b: string)
    requires Lacks(a + s + b, ':')
    ensures Lacks(s, ':')
  {
    forall i | 0 <= i < |s| ensures s[i] != ':' {
      assert (a + s + b)[|a| + i] == s[i];
    }
  }

  /** Parsing goes by the parts. */
  lemma ParseByParts(p: Parts)
    requires PartsOk(p)
    ensures ParseAction(Whole(p)) == ByParts(p, Lower(p.head), ByteLen(Trim(Rust, Whole(p))))
  {
    PartsRead(p);
  }

  function ByParts(p: Parts, head: string, size: nat): Result<ChromeAction, ActionError> {
    if p.head == [] && p.arg.None? then Err(Empty)
    else if IsCommandHead(head) then
      if size > MAX_COMMAND_ACTION_LEN then Err(TooLong) else ParseInvoke(RawText(p.arg))
    else if size > MAX_ACTION_LEN then Err(TooLong)
    else ParseCatalog(head, LoweredText(p.arg))
  }

  /** What a string of parts `p` spells in the closed catalog. */
  ghost predicate SpellsWhole(p: Parts, a: ChromeAction) {
    ByteLen(Trim(Rust, Whole(p))) <= 320 && Spells(Lower(p.head), LoweredText(p.arg), a)
  }

  /** A string is accepted as a catalog action exactly when it is, in any case and
      among blanks, one of the action's names, followed for an argument-free action
      by nothing or a colon and blanks, and otherwise by a colon and one direction
      word or one number in range; within 320 bytes. */
  lemma CatalogActionExactly(p: Parts, a: ChromeAction)
    requires PartsOk(p) && !a.InvokeCommand?
    ensures ParseAction(Whole(p)) == Ok(a) <==> SpellsWhole(p, a)
  {
    var head, arg := Lower(p.head), LoweredText(p.arg);
    ParseByParts(p);
    if IsCommandHead(head) {
      InvokesOnly(RawText(p.arg));
      CommandSpellsNothing(head, arg, a);
    } else {
      CatalogExactly(head, arg, a);
      SpellsSomething(head, arg, a);
    }
  }

  lemma SpellsSomething(head: string, arg: Option<string>, a: ChromeAction)
    ensures Spells(head, arg, a) ==> head != []
  {
    if n :| Names(n, head) && SpellsAs(n, arg, a) {
      NotCommandHead(n, head);
    }
  }

  lemma InvokesOnly(tail: string)
    ensures ParseInvoke(tail).Ok? ==> ParseInvoke(tail).value.InvokeCommand?
  {
  }

  lemma CommandSpellsNothing(head: string, arg: Option<string>, a: ChromeAction)
    requires IsCommandHead(head)
    ensures !Spells(head, arg, a)
  {
    if n :| Names(n, head) && SpellsAs(n, arg, a) {
      NotCommandHead(n, head);
    }
  }

  // why a string is refused

  /** Blanks, the document's two dashes, blanks and the document. */
  predicate Carries(more: string, d: Document) {
    && AllSpace(Rust, d.before) && d.before != [] && AllSpace(Rust, d.after) && d.after != []
    && d.blob != [] && Trimmed(Rust, d.blob)
    && more == d.before + ("--" + (d.after + d.blob))
  }

  /** Why the tail of a command, a word and what follows it, is refused. */
  ghost predicate TailRefused(word: string, more: string, e: ActionError) {
    match e
    case NeedsQualifiedCommand => !TargetOk(Lower(word))
    case NeedsSeparator => TargetOk(Lower(word)) && more != [] && forall d :: !Carries(more, d)
    case ArgsTooLarge => TargetOk(Lower(word)) && exists d :: Carries(more, d) && ByteLen(d.blob) > 4096
    case InvalidArgs(reason) =>
      TargetOk(Lower(word)) && exists d :: Carries(more, d) && BlobRefused(d.blob, reason)
    case _ => false
  }

  ghost predicate BlobRefused(blob: string, reason: ArgsJson.Reason) {
    ByteLen(blob) <= 4096 && ArgsJson.RefusedFor(blob, reason)
  }

  /** `word` is the tail's first word. */
  predicate FirstWord(tail: string, word: string, more: string) {
    NoSpace(Rust, word) && tail == word + more && (more == [] || IsSpace(Rust, more[0]))
  }

  /** Past the first word stand two dashes, a blank and something more. */
  predicate Separated(rest: string) {
    "--" <= rest && rest[2..] != [] && IsSpace(Rust, rest[2..][0]) && Trim(Rust, rest[2..]) != []
  }

  lemma InvokeFrom(tail: string, i: nat)
    requires FirstSpace(Rust, tail) == i < |tail| && TargetOk(Lower(tail[..i]))
    ensures var rest := Trim(Rust, tail[i + 1..]);
            ParseInvoke(tail) == if Separated(rest) then WithArgs(Lower(tail[..i]), Trim(Rust, rest[2..]))
                                 else Err(NeedsSeparator)
  {
  }

  lemma WordFirst(word: string, more: string)
    requires FirstWord(word + more, word, more) && more != []
    ensures FirstSpace(Rust, word + more) == |word| < |word + more|
    ensures (word + more)[..|word|] == word && (word + more)[|word| + 1..] == more[1..]
  {
    FirstSpaceIs(Rust, word + more, |word|);
  }

  /** What a tail carries, the parser finds. */
  lemma CarriedIsFound(word: string, more: string, d: Document)
    requires NoSpace(Rust, word) && TargetOk(Lower(word)) && Carries(more, d)
    ensures ParseInvoke(word + more) == WithArgs(Lower(word), d.blob)
  {
    CarriedTrims(more, d);
    WordFirst(word, more);
    InvokeFrom(word + more, |word|);
  }

  /** And a tail that does not lack its separator carries a document. */
  lemma FoundIsCarried(word: string, more: string)
    requires FirstWord(word + more, word, more) && more != [] && Trimmed(Rust, word + more) && TargetOk(Lower(word))
    ensures ParseInvoke(word + more) == Err(NeedsSeparator) || exists d :: Carries(more, d)
  {
    WordFirst(word, more);
    InvokeFrom(word + more, |word|);
    if Separated(Trim(Rust, more[1..])) {
      SeparatedCarries(word, more);
    }
  }

  lemma SeparatedCarries(word: string, more: string)
    requires FirstWord(word + more, word, more) && more != [] && Trimmed(Rust, word + more)
    requires Separated(Trim(Rust, more[1..]))
    ensures exists d :: Carries(more, d)
  {
    var tail := word + more;
    WordFirst(word, more);
    assert tail[|word|] == more[0];
    var d := DocumentOf(tail, |word|, Trim(Rust, more[1..]));
    assert tail == word + (d.before + ("--" + (d.after + d.blob)));
    assert more == tail[|word|..] == d.before + ("--" + (d.after + d.blob));
    assert Carries(more, d);
  }

  /** A tail carries one document. */
  lemma CarriedOnce(more: string, d: Document, e: Document)
    requires Carries(more, d) && Carries(more, e)
    ensures d.blob == e.blob
  {
    CarriedTrims(more, d);
    CarriedTrims(more, e);
  }

  lemma CarriedTrims(more: string, d: Document)
    requires Carries(more, d)
    ensures more != [] && IsSpace(Rust, more[0])
    ensures Separated(Trim(Rust, more[1..])) && Trim(Rust, Trim(Rust, more[1..])[2..]) == d.blob
  {
    assert more[0] == d.before[0];
    assert more[1..] == d.before[1..] + ("--" + (d.after + d.blob));
    SeparatorTail(d.before[1..], d.after, d.blob);
  }

  /** Why a carried document is refused. */
  ghost predicate DocumentRefused(blob: string, e: ActionError) {
    match e
    case ArgsTooLarge => ByteLen(blob) > 4096
    case InvalidArgs(reason) => BlobRefused(blob, reason)
    case _ => false
  }

  lemma WithArgsRefuses(target: string, blob: string, e: ActionError)
    ensures WithArgs(target, blob) == Err(e) <==> DocumentRefused(blob, e)
  {
    if e.InvalidArgs? {
      ArgsJson.ReasonsExactly(blob, e.reason);
    }
  }

  lemma CarriedRefused(word: string, more: string, d: Document, e: ActionError)
    requires NoSpace(Rust, word) && TargetOk(Lower(word)) && Carries(more, d)
    ensures TailRefused(word, more, e) <==> DocumentRefused(d.blob, e)
  {
    forall d2 | Carries(more, d2) ensures d2.blob == d.blob {
      CarriedOnce(more, d, d2);
    }
  }

  lemma BareWordFound(word: string, more: string)
    requires FirstWord(word + more, word, more) && (more == [] || !TargetOk(Lower(word)))
    ensures ParseInvoke(word + more) == if TargetOk(Lower(word)) then Ok(InvokeCommand(Lower(word), None))
                                        else Err(NeedsQualifiedCommand)
  {
    FirstSpaceIs(Rust, word + more, |word|);
    assert (word + more)[..|word|] == word;
  }

  lemma BareWordRefused(word: string, more: string, e: ActionError)
    requires FirstWord(word + more, word, more) && (more == [] || !TargetOk(Lower(word)))
    ensures ParseInvoke(word + more) == Err(e) <==> TailRefused(word, more, e)
  {
    BareWordFound(word, more);
    assert more == [] ==> forall d :: !Carries(more, d);
  }

  /** A command's tail is refused for exactly one reason, told from its first word
      and what follows it. */
  lemma TailRefusedExactly(word: string, more: string, e: ActionError)
    requires FirstWord(word + more, word, more) && Trimmed(Rust, word + more)
    ensures ParseInvoke(word + more) == Err(e) <==> TailRefused(word, more, e)
  {
    if more == [] || !TargetOk(Lower(word)) {
      BareWordRefused(word, more, e);
    } else if d :| Carries(more, d) {
      CarriedIsFound(word, more, d);
      WithArgsRefuses(Lower(word), d.blob, e);
      CarriedRefused(word, more, d, e);
    } else {
      FoundIsCarried(word, more);
    }
  }

  /** Why a string of parts `p` is refused. */
  ghost predicate WholeRefused(p: Parts, e: ActionError) {
    var head, size := Lower(p.head), ByteLen(Trim(Rust, Whole(p)));
    if p.head == [] && p.arg.None? then e == Empty
    else if head in Spellings(CommandName) then
      if size > 4365 then e == TooLong
      else exists word, more :: FirstWord(RawText(p.arg), word, more) && TailRefused(word, more, e)
    else
      if size > 320 then e == TooLong else CatalogRefuses(head, LoweredText(p.arg), e)
  }

  /** Every refused string is refused for exactly its reason. */
  lemma RefusedExactly(p: Parts, e: ActionError)
    requires PartsOk(p)
    ensures ParseAction(Whole(p)) == Err(e) <==> WholeRefused(p, e)
  {
    var head, arg := Lower(p.head), LoweredText(p.arg);
    ParseByParts(p);
    CommandHeads(head);
    if IsCommandHead(head) {
      TailRefusal(RawText(p.arg), e);
    } else {
      CatalogRefusesExactly(head, arg, e);
    }
  }

  lemma TailRefusal(tail: string, e: ActionError)
    requires Trimmed(Rust, tail)
    ensures ParseInvoke(tail) == Err(e)
       <==> exists word, more :: FirstWord(tail, word, more) && TailRefused(word, more, e)
  {
    var w, m := CutWord(tail);
    TailRefusedExactly(w, m, e);
    forall word, more | FirstWord(tail, word, more) ensures word == w && more == m {
      OneFirstWord(tail, word, more, w, m);
    }
  }

  lemma CutWord(tail: string) returns (word: string, more: string)
    ensures FirstWord(tail, word, more)
  {
    var i := FirstSpace(Rust, tail);
    word, more := tail[..i], tail[i..];
    assert tail == word + more;
  }

  lemma OneFirstWord(tail: string, a: string, b: string, c: string, d: string)
    requires FirstWord(tail, a, b) && FirstWord(tail, c, d)
    ensures a == c && b == d
  {
    FirstSpaceIs(Rust, tail, |a|);
    FirstSpaceIs(Rust, tail, |c|);
    assert a == tail[..|a|] && b == tail[|a|..] && c == tail[..|c|] && d == tail[|c|..];
  }

  /** An owner and a command around one colon. */
  predicate Qualified(target: string, owner: string, command: string) {
    && owner != [] && command != [] && Lacks(owner, ':') && Lacks(command, ':')
    && target == owner + ([':'] + command)
  }

  /** A command's target is qualified once, short, and free of blanks and NULs. */
  lemma TargetIsQualified(target: string)
    ensures TargetOk(target) <==>
              && ByteLen(target) <= 257 && Lacks(target, '\0') && Lacks(target, ' ')
              && exists owner, command :: Qualified(target, owner, command)
  {
    var i := IndexOf(target, ':');
    if i < |target| {
      assert target == target[..i] + ([':'] + target[i + 1..]);
      assert TargetOk(target) ==> Qualified(target, target[..i], target[i + 1..]);
    }
    if owner, command :| Qualified(target, owner, command) {
      IndexOfIs(target, ':', |owner|);
      assert target[..|owner|] == owner && target[|owner| + 1..] == command;
    }
  }
}
