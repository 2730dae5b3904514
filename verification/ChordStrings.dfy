/** The chord strings of crates/bitty-config/src/keymap.rs taken whole: which
    words name which modifier and key, and which strings spell which chord. */
module ChordStrings {
  import opened Wrappers
  import opened Text
  import opened Chords

  // ---------------------------------------------------------------- the words

  /** What a word names: a modifier, a key, or a modifier no chord can hold. */
  datatype Word = ModWord(m: Modifier) | KeyWord(key: KeyName) | NoWord

  /** Every spelling of a modifier. */
  function ModSpellings(m: Modifier): seq<string> {
    match m
    case Ctrl => ["ctrl", "control"]
    case Alt => ["alt", "opt", "option"]
    case Shift => ["shift"]
    case Super => ["super", "meta", "cmd", "command", "win", "windows"]
  }

  /** Every word that names a key, the canonical one first for the named keys. */
  function KeySpellings(key: KeyName): seq<string> {
    match key
    case Tab => ["tab"]
    case Enter => ["enter", "return"]
    case Escape => ["escape", "esc"]
    case Space => ["space", "spacebar"]
    case Backspace => ["backspace", "bs"]
    case Delete => ["delete", "del"]
    case Insert => ["insert", "ins"]
    case Home => ["home", "hm"]
    case End => ["end"]
    case PageUp => ["pageup", "pgup", "pu"]
    case PageDown => ["pagedown", "pgdn", "pd"]
    case Up => ["up", "arrowup", "arrow_up", "arrow-up"]
    case Down => ["down", "arrowdown", "arrow_down", "arrow-down"]
    case Left => ["left", "arrowleft", "arrow_left", "arrow-left"]
    case Right => ["right", "arrowright", "arrow_right", "arrow-right"]
    case F(_) => []
    case Char(c) => CharSpellings(c)
  }

  function CharSpellings(c: char): seq<string> {
    if c == '+' then ["plus"]
    else if c == '-' then ["minus"]
    else if c == '=' then ["equal", "equals", "eq"]
    else if c == '_' then ["underscore"]
    else []
  }

  function Spellings(w: Word): seq<string> {
    match w
    case ModWord(m) => ModSpellings(m)
    case KeyWord(key) => KeySpellings(key)
    case NoWord => ["hyper", "altgraph", "alt_graph"]
  }

  /** A number that tells the spellings apart. */
  function Fingerprint(s: string): int {
    6 * CharAt(s, 1) + 2 * CharAt(s, 5) + (if s == [] then 0 else CharAt(s, |s| - 1)) + 5 * |s|
  }

  /** Whose spelling has this fingerprint. */
  function Owner(code: int): Option<Word> {
    match code
    case 824 | 1031 => Some(ModWord(Ctrl))
    case 779 | 803 | 1032 => Some(ModWord(Alt))
    case 765 => Some(ModWord(Shift))
    case 841 | 723 | 769 | 1021 | 755 | 1018 => Some(ModWord(Super))
    case 695 => Some(KeyWord(Tab))
    case 799 | 966 => Some(KeyWord(Enter))
    case 1023 | 804 => Some(KeyWord(Escape))
    case 798 | 1022 => Some(KeyWord(Space))
    case 952 | 815 => Some(KeyWord(Backspace))
    case 939 | 729 => Some(KeyWord(Delete))
    case 1038 | 790 => Some(KeyWord(Insert))
    case 787 | 773 => Some(KeyWord(Home))
    case 775 => Some(KeyWord(End))
    case 948 | 750 | 829 => Some(KeyWord(PageUp))
    case 954 | 748 | 710 => Some(KeyWord(PageDown))
    case 794 | 1065 | 1026 | 926 => Some(KeyWord(Up))
    case 796 | 1039 | 1034 | 934 => Some(KeyWord(Down))
    case 742 | 1061 | 1040 | 940 => Some(KeyWord(Left))
    case 771 | 1078 | 1045 | 945 => Some(KeyWord(Right))
    case 783 => Some(KeyWord(Char('+')))
    case 770 => Some(KeyWord(Char('-')))
    case 811 | 1053 | 801 => Some(KeyWord(Char('=')))
    case 1041 => Some(KeyWord(Char('_')))
    case 865 | 986 | 1025 => Some(NoWord)
    case _ => None
  }

  lemma ModOwned(m: Modifier, t: string)
    requires t in ModSpellings(m)
    ensures Owner(Fingerprint(t)) == Some(ModWord(m))
  {
  }

  lemma VerticalOwned(key: KeyName, t: string)
    requires (key.Up? || key.Down?) && t in KeySpellings(key)
    ensures Owner(Fingerprint(t)) == Some(KeyWord(key))
  {
  }

  lemma HorizontalOwned(key: KeyName, t: string)
    requires (key.Left? || key.Right?) && t in KeySpellings(key)
    ensures Owner(Fingerprint(t)) == Some(KeyWord(key))
  {
  }

  lemma PlaceOwned(key: KeyName, t: string)
    requires (key.Home? || key.End? || key.PageUp? || key.PageDown?) && t in KeySpellings(key)
    ensures Owner(Fingerprint(t)) == Some(KeyWord(key))
  {
  }

  lemma EditOwned(key: KeyName, t: string)
    requires (key.Backspace? || key.Insert? || key.Delete?) && t in KeySpellings(key)
    ensures Owner(Fingerprint(t)) == Some(KeyWord(key))
  {
  }

  lemma BlankOwned(key: KeyName, t: string)
    requires (key.Tab? || key.Enter? || key.Escape? || key.Space?) && t in KeySpellings(key)
    ensures Owner(Fingerprint(t)) == Some(KeyWord(key))
  {
  }

  lemma CharOwned(c: char, t: string)
    requires t in CharSpellings(c)
    ensures Owner(Fingerprint(t)) == Some(KeyWord(Char(c)))
  {
  }

  lemma NoWordOwned(t: string)
    requires t in Spellings(NoWord)
    ensures Owner(Fingerprint(t)) == Some(NoWord)
  {
  }

  lemma SpellingOwned(w: Word, t: string)
    requires t in Spellings(w)
    ensures Owner(Fingerprint(t)) == Some(w)
  {
    match w
    case ModWord(m) => ModOwned(m, t);
    case NoWord => NoWordOwned(t);
    case KeyWord(key) =>
      match key
      case Char(c) => CharOwned(c, t);
      case Up | Down => VerticalOwned(key, t);
      case Left | Right => HorizontalOwned(key, t);
      case Home | End | PageUp | PageDown => PlaceOwned(key, t);
      case Backspace | Insert | Delete => EditOwned(key, t);
      case _ => BlankOwned(key, t);
  }

  /** No string names two things. */
  lemma WordsApart(v: Word, w: Word, t: string)
    requires t in Spellings(v) && t in Spellings(w)
    ensures v == w
  {
    SpellingOwned(v, t);
    SpellingOwned(w, t);
  }

  lemma ModifierIsWord(t: string)
    requires ModifierOf(t).Some?
    ensures t in ModSpellings(ModifierOf(t).value)
  {
  }

  lemma WordIsModifier(m: Modifier, t: string)
    requires t in ModSpellings(m)
    ensures ModifierOf(t).Some?
  {
  }

  /** A modifier is read from exactly its spellings. */
  lemma ModifierWordsExactly(t: string, m: Modifier)
    ensures ModifierOf(t) == Some(m) <==> t in ModSpellings(m)
  {
    if ModifierOf(t) == Some(m) {
      ModifierIsWord(t);
    } else if t in ModSpellings(m) {
      WordIsModifier(m, t);
      ModifierIsWord(t);
      WordsApart(ModWord(m), ModWord(ModifierOf(t).value), t);
    }
  }

  lemma EditIsWord(t: string)
    requires EditKey(t).Some?
    ensures t in KeySpellings(EditKey(t).value)
  {
  }

  lemma ArrowIsWord(t: string)
    requires ArrowKey(t).Some?
    ensures t in KeySpellings(ArrowKey(t).value)
  {
  }

  lemma SignIsWord(t: string)
    requires SignKey(t).Some?
    ensures t in KeySpellings(SignKey(t).value)
  {
  }

  lemma NamedIsWord(t: string)
    requires NamedKey(t).Some?
    ensures t in KeySpellings(NamedKey(t).value)
  {
    if EditKey(t).Some? {
      EditIsWord(t);
    } else if ArrowKey(t).Some? {
      ArrowIsWord(t);
    } else {
      SignIsWord(t);
    }
  }

  predicate IsArrow(key: KeyName) { key.Up? || key.Down? || key.Left? || key.Right? }

  lemma WordIsArrow(key: KeyName, t: string)
    requires IsArrow(key) && t in KeySpellings(key)
    ensures ArrowKey(t).Some?
  {
  }

  lemma WordIsSign(c: char, t: string)
    requires t in CharSpellings(c)
    ensures SignKey(t).Some?
  {
  }

  lemma WordIsEdit(key: KeyName, t: string)
    requires !IsArrow(key) && !key.Char? && t in KeySpellings(key)
    ensures EditKey(t).Some?
  {
  }

  lemma WordIsNamed(key: KeyName, t: string)
    requires t in KeySpellings(key)
    ensures NamedKey(t).Some?
  {
    if IsArrow(key) {
      WordIsArrow(key, t);
    } else if key.Char? {
      WordIsSign(key.c, t);
    } else {
      WordIsEdit(key, t);
    }
  }

  /** A key word names exactly the key it is a spelling of. */
  lemma KeyWordsExactly(t: string, key: KeyName)
    ensures NamedKey(t) == Some(key) <==> t in KeySpellings(key)
  {
    if NamedKey(t) == Some(key) {
      NamedIsWord(t);
    } else if t in KeySpellings(key) {
      WordIsNamed(key, t);
      NamedIsWord(t);
      WordsApart(KeyWord(key), KeyWord(NamedKey(t).value), t);
    }
  }

  // ---------------------------------------------------------------- one segment

  /** A segment spells `key`: by one of its words, as `f` and a number, or as one
      graphic character, which may be a capital. */
  ghost predicate SpellsKey(t: string, key: KeyName) {
    || t in KeySpellings(key)
    || (key.F? && 1 <= key.n <= 35 && t != [] && t[0] == 'f' && NumberWord(t[1..], key.n))
    || (key.Char? && |t| == 1 && t[0] != '+' && 0x21 <= t[0] as int <= 0x7E && LowerChar(t[0]) == key.c)
  }

  lemma WordsAreLong(w: Word, t: string)
    requires t in Spellings(w)
    ensures |t| > 1 && t[0] != 'f'
  {
    SpellingOwned(w, t);
    if |t| <= 1 {
      ShortUnowned(t);
    } else if t[0] == 'f' {
      LetterFNamesNothing(t);
      WordIsRead(w, t);
    }
  }

  lemma ShortUnowned(t: string)
    requires |t| <= 1
    ensures forall w :: t !in Spellings(w)
  {
  }

  lemma WordIsRead(w: Word, t: string)
    requires t in Spellings(w)
    ensures NamedKey(t).Some? || IsModifierName(t)
  {
    match w
    case ModWord(m) => WordIsModifier(m, t);
    case KeyWord(key) => WordIsNamed(key, t);
    case NoWord =>
  }

  lemma ModifierNameIsWord(t: string)
    requires IsModifierName(t)
    ensures exists w: Word :: !w.KeyWord? && t in Spellings(w)
  {
    if ModifierOf(t).Some? {
      ModifierIsWord(t);
      assert t in Spellings(ModWord(ModifierOf(t).value));
    } else {
      assert t in Spellings(NoWord);
    }
  }

  lemma FunctionKeyExactly(t: string, key: KeyName)
    requires ByteLen(t) > 1 && t[0] == 'f'
    ensures KeyOf(t) == Some(key) <==> key.F? && 1 <= key.n <= 35 && NumberWord(t[1..], key.n)
  {
    LetterFNamesNothing(t);
    if key.F? {
      NumberExactly(t[1..], 255, key.n);
    }
  }

  lemma NumberWordNotEmpty(s: string, n: nat)
    requires NumberWord(s, n)
    ensures s != []
  {
  }

  /** A segment is read as exactly the key it spells. */
  lemma KeyOfExactly(t: string, key: KeyName)
    ensures KeyOf(t) == Some(key) <==> SpellsKey(t, key)
  {
    KeyWordsExactly(t, key);
    ByteLenAtLeast(t);
    if NamedKey(t).Some? {
      NamedIsWord(t);
      WordsAreLong(KeyWord(NamedKey(t).value), t);
    } else if IsModifierName(t) {
      ModifierNameIsWord(t);
      var w: Word :| !w.KeyWord? && t in Spellings(w);
      WordsAreLong(w, t);
    } else if ByteLen(t) > 1 && t[0] == 'f' {
      FunctionKeyExactly(t, key);
      OneByte(t);
    } else if key.F? && t != [] && NumberWord(t[1..], key.n) {
      NumberWordNotEmpty(t[1..], key.n);
    }
  }

  lemma OneByte(t: string)
    ensures |t| == 1 && t[0] as int <= 0x7E ==> ByteLen(t) == 1
  {
    if |t| == 1 {
      assert t[1..] == [];
    }
  }

  // ---------------------------------------------------------------- whole chords

  /** One segment, and only one, is among `names`. */
  ghost predicate OnceIn(tokens: seq<string>, names: seq<string>) {
    exists i :: 0 <= i < |tokens| && tokens[i] in names
                && forall j :: 0 <= j < |tokens| && j != i ==> tokens[j] !in names
  }

  ghost predicate NoneIn(tokens: seq<string>, names: seq<string>) {
    forall i :: 0 <= i < |tokens| ==> tokens[i] !in names
  }

  predicate IsModWord(t: string) { exists m: Modifier :: t in ModSpellings(m) }

  /** Segment `k` spells the key, and every other one a modifier. */
  ghost predicate KeyAt(tokens: seq<string>, key: KeyName, k: nat) {
    k < |tokens| && SpellsKey(tokens[k], key) && forall j :: 0 <= j < |tokens| && j != k ==> IsModWord(tokens[j])
  }

  /** The segments spell `c`: the key once, each held modifier once, nothing else,
      and a character only with a modifier. */
  ghost predicate SpellsChord(tokens: seq<string>, c: Chord) {
    && (exists k: nat :: KeyAt(tokens, c.key, k))
    && (forall m :: if HeldBy(c, m) then OnceIn(tokens, ModSpellings(m)) else NoneIn(tokens, ModSpellings(m)))
    && (c.key.Char? ==> c.ctrl || c.alt || c.shift || c.superHeld)
  }

  /** Segment `i` is of kind `k`, and no other is. */
  ghost predicate OnlyAt(tokens: seq<string>, k: Kind, i: nat) {
    && i < |tokens| && KindOf(tokens[i]) == k
    && forall j :: 0 <= j < |tokens| && j != i ==> KindOf(tokens[j]) != k
  }

  ghost predicate OnceKind(tokens: seq<string>, k: Kind) { exists i: nat :: OnlyAt(tokens, k, i) }

  ghost predicate NoKind(tokens: seq<string>, k: Kind) {
    forall i :: 0 <= i < |tokens| ==> KindOf(tokens[i]) != k
  }

  lemma {:induction false} CountsNone(tokens: seq<string>, k: Kind)
    ensures Count(tokens, k) == 0 <==> NoKind(tokens, k)
    decreases |tokens|
  {
    if tokens == [] {
    } else {
      CountsNone(tokens[1..], k);
      assert forall i :: 0 < i < |tokens| ==> tokens[i] == tokens[1..][i - 1];
    }
  }

  lemma {:induction false} CountsOnce(tokens: seq<string>, k: Kind)
    ensures Count(tokens, k) == 1 <==> OnceKind(tokens, k)
    decreases |tokens|
  {
    if tokens == [] {
    } else {
      var rest := tokens[1..];
      CountsNone(rest, k);
      CountsOnce(rest, k);
      if KindOf(tokens[0]) == k {
        OnceAtFirst(tokens, k);
      } else {
        OnceLater(tokens, k);
      }
    }
  }

  lemma OnceAtFirst(tokens: seq<string>, k: Kind)
    requires tokens != [] && KindOf(tokens[0]) == k
    ensures OnceKind(tokens, k) <==> NoKind(tokens[1..], k)
  {
    var rest := tokens[1..];
    assert forall i :: 0 <= i < |rest| ==> rest[i] == tokens[i + 1];
    assert forall i :: 0 < i < |tokens| ==> tokens[i] == rest[i - 1];
    if NoKind(rest, k) {
      assert OnlyAt(tokens, k, 0);
    }
  }

  lemma OnlyLater(tokens: seq<string>, k: Kind, i: nat)
    requires tokens != [] && KindOf(tokens[0]) != k
    ensures OnlyAt(tokens, k, i + 1) <==> OnlyAt(tokens[1..], k, i)
  {
    var rest := tokens[1..];
    assert forall j :: 0 <= j < |rest| ==> rest[j] == tokens[j + 1];
    assert forall j :: 0 < j < |tokens| ==> tokens[j] == rest[j - 1];
  }

  lemma OnceLater(tokens: seq<string>, k: Kind)
    requires tokens != [] && KindOf(tokens[0]) != k
    ensures OnceKind(tokens, k) <==> OnceKind(tokens[1..], k)
  {
    if i: nat :| OnlyAt(tokens[1..], k, i) {
      OnlyLater(tokens, k, i);
    }
    if i: nat :| OnlyAt(tokens, k, i) {
      OnlyLater(tokens, k, i - 1);
    }
  }

  lemma KindIsWord(t: string, m: Modifier)
    ensures KindOf(t) == Mod(m) <==> t in ModSpellings(m)
  {
    ModifierWordsExactly(t, m);
    if t in ModSpellings(m) {
      WordsAreLong(ModWord(m), t);
    }
  }

  lemma KindIsModWord(t: string)
    ensures KindOf(t).Mod? <==> IsModWord(t)
  {
    if KindOf(t).Mod? {
      KindIsWord(t, KindOf(t).m);
    }
    if m: Modifier :| t in ModSpellings(m) {
      KindIsWord(t, m);
    }
  }

  lemma KeyIsKeyKind(t: string)
    requires KeyOf(t).Some?
    ensures KindOf(t) == Key
  {
    KeyOfExactly(t, KeyOf(t).value);
    SpellsSomething(t, KeyOf(t).value);
  }

  lemma SpellsSomething(t: string, key: KeyName)
    requires SpellsKey(t, key)
    ensures t != [] && ModifierOf(t).None?
  {
    if t in KeySpellings(key) {
      WordsAreLong(KeyWord(key), t);
      if ModifierOf(t).Some? {
        ModifierIsWord(t);
        WordsApart(KeyWord(key), ModWord(ModifierOf(t).value), t);
      }
    } else if ModifierOf(t).Some? {
      ModifierIsWord(t);
      WordsAreLong(ModWord(ModifierOf(t).value), t);
    }
  }

  lemma ModifierCounts(tokens: seq<string>, m: Modifier)
    ensures Count(tokens, Mod(m)) == 0 <==> NoneIn(tokens, ModSpellings(m))
    ensures Count(tokens, Mod(m)) == 1 <==> OnceIn(tokens, ModSpellings(m))
  {
    CountsNone(tokens, Mod(m));
    CountsOnce(tokens, Mod(m));
    forall t ensures KindOf(t) == Mod(m) <==> t in ModSpellings(m) {
      KindIsWord(t, m);
    }
  }

  /** Segment `k` is the key and every other one a modifier. */
  ghost predicate KeyAmongMods(tokens: seq<string>, k: nat) {
    && k < |tokens| && KindOf(tokens[k]) == Key
    && forall j :: 0 <= j < |tokens| && j != k ==> KindOf(tokens[j]).Mod?
  }

  lemma KeyAmongModsIs(tokens: seq<string>, k: nat)
    ensures KeyAmongMods(tokens, k) <==> OnlyAt(tokens, Key, k) && NoKind(tokens, Blank)
  {
  }

  lemma OneKeyKind(tokens: seq<string>)
    ensures Count(tokens, Key) == 1 && Count(tokens, Blank) == 0 <==> exists k: nat :: KeyAmongMods(tokens, k)
  {
    CountsOnce(tokens, Key);
    CountsNone(tokens, Blank);
    forall k: nat ensures KeyAmongMods(tokens, k) <==> OnlyAt(tokens, Key, k) && NoKind(tokens, Blank) {
      KeyAmongModsIs(tokens, k);
    }
  }

  lemma KeyCounts(tokens: seq<string>, key: KeyName)
    ensures Count(tokens, Key) == 1 && Count(tokens, Blank) == 0 && KeyOf(TheKey(tokens)) == Some(key)
       <==> exists k: nat :: KeyAt(tokens, key, k)
  {
    OneKeyKind(tokens);
    forall t ensures KindOf(t).Mod? <==> IsModWord(t) {
      KindIsModWord(t);
    }
    if Count(tokens, Key) == 1 && Count(tokens, Blank) == 0 && KeyOf(TheKey(tokens)) == Some(key) {
      var k: nat :| KeyAmongMods(tokens, k);
      TheKeyIs(tokens, tokens[k]);
      KeyOfExactly(tokens[k], key);
      assert KeyAt(tokens, key, k);
    }
    if k: nat :| KeyAt(tokens, key, k) {
      KeyOfExactly(tokens[k], key);
      KeyIsKeyKind(tokens[k]);
      assert KeyAmongMods(tokens, k);
      TheKeyIs(tokens, tokens[k]);
    }
  }

  /** Segments make exactly the chord they spell. */
  lemma SegmentsSpellChord(tokens: seq<string>, c: Chord)
    ensures ChordOfTokens(tokens) == Some(c) <==> SpellsChord(tokens, c)
  {
    KeyCounts(tokens, c.key);
    ModifierCounts(tokens, Ctrl);
    ModifierCounts(tokens, Alt);
    ModifierCounts(tokens, Shift);
    ModifierCounts(tokens, Super);
    if ChordOfTokens(tokens) == Some(c) {
      forall m ensures if HeldBy(c, m) then OnceIn(tokens, ModSpellings(m)) else NoneIn(tokens, ModSpellings(m)) {
        match m case Ctrl => case Alt => case Shift => case Super =>
      }
    }
    if SpellsChord(tokens, c) {
      HeldCounts(tokens, c);
    }
  }

  lemma HeldCounts(tokens: seq<string>, c: Chord)
    requires SpellsChord(tokens, c)
    ensures Count(tokens, Mod(Ctrl)) == (if c.ctrl then 1 else 0) && Count(tokens, Mod(Alt)) == (if c.alt then 1 else 0)
    ensures Count(tokens, Mod(Shift)) == if c.shift then 1 else 0
    ensures Count(tokens, Mod(Super)) == if c.superHeld then 1 else 0
  {
    forall m ensures Count(tokens, Mod(m)) == if HeldBy(c, m) then 1 else 0 {
      ModifierCounts(tokens, m);
    }
  }

  /** A string is parsed to exactly the chord its '+'-separated segments, trimmed
      and lowered, spell; within 64 bytes. */
  lemma StringSpellsChord(raw: string, c: Chord)
    ensures ChordOf(raw) == Some(c) <==>
              ByteLen(Trim(Rust, raw)) <= 64 && Trim(Rust, raw) != [] && SpellsChord(Tokens(Trim(Rust, raw)), c)
  {
    SegmentsSpellChord(Tokens(Trim(Rust, raw)), c);
  }

  /** Writing letters as capitals or not makes no difference to the chord. */
  lemma CapitalsIgnored(a: string, b: string)
    requires SameLetters(a, b)
    ensures ChordOf(a) == ChordOf(b)
  {
    LowerIsSameLetters(a, b);
    CaseIgnored(a, b);
  }

  /** The named keys print as their first spelling. */
  lemma KeyTextFirst(key: KeyName)
    requires !key.F? && !key.Char?
    ensures KeySpellings(key) != [] && KeySpellings(key)[0] == KeyText(key)
  {
  }
}
