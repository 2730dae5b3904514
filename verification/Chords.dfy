/** Key chords (crates/bitty-config/src/keymap.rs): the parser, the canonical
    printer, the mod-key rebinding and the exact matcher. */
module Chords {
  import opened Wrappers
  import opened Text

  const MAX_CHORD_LEN: nat := 64

  datatype KeyName =
    | Tab | Enter | Escape | Space | Backspace | Delete | Insert | Home | End | PageUp | PageDown
    | Up | Down | Left | Right
    | F(n: nat)
    | Char(c: char)

  datatype Modifier = Ctrl | Alt | Shift | Super

  datatype Chord = Chord(ctrl: bool, alt: bool, shift: bool, superHeld: bool, key: KeyName)

  predicate HeldBy(c: Chord, m: Modifier) {
    match m
    case Ctrl => c.ctrl
    case Alt => c.alt
    case Shift => c.shift
    case Super => c.superHeld
  }

  predicate Held(c: Chord) { c.ctrl || c.alt || c.shift || c.superHeld }

  // ---------------------------------------------------------------- tokens

  function ModifierOf(token: string): Option<Modifier> {
    if token == "ctrl" || token == "control" then Some(Ctrl)
    else if token == "alt" || token == "opt" || token == "option" then Some(Alt)
    else if token == "shift" then Some(Shift)
    else if token == "super" || token == "meta" || token == "cmd" || token == "command"
         || token == "win" || token == "windows" then Some(Super)
    else None
  }

  /** Key tokens that only name a modifier and never a key. */
  predicate IsModifierName(token: string) {
    ModifierOf(token).Some? || token == "hyper" || token == "altgraph" || token == "alt_graph"
  }

  predicate IsAsciiGraphic(c: char) { 0x21 <= c as int <= 0x7E }

  function NamedKey(token: string): Option<KeyName> {
    if EditKey(token).Some? then EditKey(token)
    else if ArrowKey(token).Some? then ArrowKey(token)
    else SignKey(token)
  }

  function EditKey(token: string): Option<KeyName> {
    if token == "tab" then Some(Tab)
    else if token == "enter" || token == "return" then Some(Enter)
    else if token == "escape" || token == "esc" then Some(Escape)
    else if token == "space" || token == "spacebar" then Some(Space)
    else if token == "backspace" || token == "bs" then Some(Backspace)
    else if token == "delete" || token == "del" then Some(Delete)
    else if token == "insert" || token == "ins" then Some(Insert)
    else if token == "home" || token == "hm" then Some(Home)
    else if token == "end" then Some(End)
    else if token == "pageup" || token == "pgup" || token == "pu" then Some(PageUp)
    else if token == "pagedown" || token == "pgdn" || token == "pd" then Some(PageDown)
    else None
  }

  function ArrowKey(token: string): Option<KeyName> {
    if token == "up" || token == "arrowup" || token == "arrow_up" || token == "arrow-up" then Some(Up)
    else if token == "down" || token == "arrowdown" || token == "arrow_down" || token == "arrow-down" then Some(Down)
    else if token == "left" || token == "arrowleft" || token == "arrow_left" || token == "arrow-left" then Some(Left)
    else if token == "right" || token == "arrowright" || token == "arrow_right" || token == "arrow-right"
    then Some(Right)
    else None
  }

  function SignKey(token: string): Option<KeyName> {
    if token == "plus" then Some(Char('+'))
    else if token == "minus" then Some(Char('-'))
    else if token == "equal" || token == "equals" || token == "eq" then Some(Char('='))
    else if token == "underscore" then Some(Char('_'))
    else None
  }

  /** `parse_key_token`, on a lowered non-empty token. */
  function KeyOf(token: string): Option<KeyName> {
    if NamedKey(token).Some? then NamedKey(token)
    else if IsModifierName(token) then None
    else if ByteLen(token) > 1 && token[0] == 'f' then
      match ParseUnsigned(token[1..], 255)
      case Some(n) => if 1 <= n <= 35 then Some(F(n)) else None
      case None => None
    else if |token| == 1 && IsAsciiGraphic(token[0]) && token[0] != '+' then Some(Char(LowerChar(token[0])))
    else None
  }

  function TokenOf(part: string): string { Lower(Trim(Rust, part)) }

  /** The '+'-separated segments, trimmed and lowered. */
  function Tokens(text: string): seq<string> {
    var parts := Split(text, '+');
    seq(|parts|, i requires 0 <= i < |parts| => TokenOf(parts[i]))
  }

  /** What one segment contributes to a chord. */
  datatype Kind = Blank | Mod(m: Modifier) | Key

  function KindOf(token: string): Kind {
    if token == [] then Blank
    else match ModifierOf(token)
      case Some(m) => Mod(m)
      case None => Key
  }

  function Count(tokens: seq<string>, k: Kind): nat {
    if tokens == [] then 0 else (if KindOf(tokens[0]) == k then 1 else 0) + Count(tokens[1..], k)
  }

  /** The first key segment. */
  function TheKey(tokens: seq<string>): string
    requires Count(tokens, Key) > 0
  {
    if KindOf(tokens[0]) == Key then tokens[0] else TheKey(tokens[1..])
  }

  /** A chord is the set of its modifiers, each named once, and its one key,
      in any order. */
  function ChordOfTokens(tokens: seq<string>): Option<Chord> {
    if Count(tokens, Blank) > 0
       || Count(tokens, Mod(Ctrl)) > 1 || Count(tokens, Mod(Alt)) > 1
       || Count(tokens, Mod(Shift)) > 1 || Count(tokens, Mod(Super)) > 1
       || Count(tokens, Key) != 1 then None
    else
      match KeyOf(TheKey(tokens))
      case None => None
      case Some(key) =>
        var c := Chord(Count(tokens, Mod(Ctrl)) == 1, Count(tokens, Mod(Alt)) == 1,
                       Count(tokens, Mod(Shift)) == 1, Count(tokens, Mod(Super)) == 1, key);
        if key.Char? && !Held(c) then None else Some(c)
  }

  function ChordOf(raw: string): Option<Chord> {
    var t := Trim(Rust, raw);
    if t == [] || ByteLen(t) > MAX_CHORD_LEN then None else ChordOfTokens(Tokens(t))
  }

  // ---------------------------------------------------------------- the parser

  datatype ChordError =
    | Empty | TooLong | EmptySegment | RepeatedModifier(m: Modifier) | ManyKeys
    | UnknownKey(token: string) | OnlyModifiers | BareCharacter

  /** Segments the parser gets past: nothing blank, nothing repeated, and a key
      it knows if there is one. */
  predicate Clean(tokens: seq<string>) {
    && Count(tokens, Blank) == 0 && Count(tokens, Key) <= 1
    && Count(tokens, Mod(Ctrl)) <= 1 && Count(tokens, Mod(Alt)) <= 1
    && Count(tokens, Mod(Shift)) <= 1 && Count(tokens, Mod(Super)) <= 1
    && (Count(tokens, Key) == 1 ==> KeyOf(TheKey(tokens)).Some?)
  }

  /** Segment `i` is the first one at fault, and `e` is its fault. */
  predicate FaultAt(tokens: seq<string>, i: nat, e: ChordError) {
    && i < |tokens| && Clean(tokens[..i])
    && match e
       case EmptySegment => tokens[i] == []
       case RepeatedModifier(m) => KindOf(tokens[i]) == Mod(m) && Count(tokens[..i], Mod(m)) == 1
       case ManyKeys => KindOf(tokens[i]) == Key && Count(tokens[..i], Key) == 1
       case UnknownKey(token) =>
         token == tokens[i] && KindOf(token) == Key && Count(tokens[..i], Key) == 0 && KeyOf(token).None?
       case _ => false
  }

  /** A refusal names the first thing wrong in segment order, and what the whole
      chord lacks only when no segment is at fault. */
  ghost predicate Blames(raw: string, e: ChordError) {
    var t := Trim(Rust, raw);
    match e
    case Empty => t == []
    case TooLong => ByteLen(t) > MAX_CHORD_LEN
    case OnlyModifiers => FitsBound(t) && Clean(Tokens(t)) && Count(Tokens(t), Key) == 0
    case BareCharacter =>
      && FitsBound(t) && Clean(Tokens(t)) && |Tokens(t)| == 1 && Count(Tokens(t), Key) == 1
      && KeyOf(TheKey(Tokens(t))).value.Char?
    case _ => FitsBound(t) && exists i: nat :: FaultAt(Tokens(t), i, e)
  }

  predicate FitsBound(t: string) { t != [] && ByteLen(t) <= MAX_CHORD_LEN }

  lemma {:induction false} CountConcat(a: seq<string>, b: seq<string>, k: Kind)
    ensures Count(a + b, k) == Count(a, k) + Count(b, k)
  {
    if a == [] {
      assert a + b == b;
    } else {
      assert (a + b)[1..] == a[1..] + b;
      CountConcat(a[1..], b, k);
    }
  }

  lemma CountOne(token: string, k: Kind)
    ensures Count([token], k) == if KindOf(token) == k then 1 else 0
  {
    assert [token][1..] == [];
  }

  /** Reading one more segment adds to one count; no count ever goes down. */
  lemma CountNext(tokens: seq<string>, i: nat)
    requires i < |tokens|
    ensures forall k :: Count(tokens[..i + 1], k)
                     == Count(tokens[..i], k) + if KindOf(tokens[i]) == k then 1 else 0
    ensures forall k :: Count(tokens[..i + 1], k) <= Count(tokens, k)
  {
    forall k
      ensures Count(tokens[..i + 1], k) == Count(tokens[..i], k) + if KindOf(tokens[i]) == k then 1 else 0
      ensures Count(tokens[..i + 1], k) <= Count(tokens, k)
    {
      assert tokens[..i + 1] == tokens[..i] + [tokens[i]];
      CountConcat(tokens[..i], [tokens[i]], k);
      CountOne(tokens[i], k);
      assert tokens == tokens[..i + 1] + tokens[i + 1..];
      CountConcat(tokens[..i + 1], tokens[i + 1..], k);
    }
  }

  /** With one key segment, it is the one `TheKey` finds. */
  lemma {:induction false} TheKeyIs(tokens: seq<string>, token: string)
    requires token in tokens && KindOf(token) == Key && Count(tokens, Key) == 1
    ensures TheKey(tokens) == token
  {
    if KindOf(tokens[0]) == Key {
      if token != tokens[0] {
        assert token in tokens[1..];
        CountMember(tokens[1..], token);
      }
    } else {
      assert token in tokens[1..];
      TheKeyIs(tokens[1..], token);
    }
  }

  lemma {:induction false} CountMember(tokens: seq<string>, token: string)
    requires token in tokens
    ensures Count(tokens, KindOf(token)) > 0
  {
    if tokens[0] != token {
      assert token in tokens[1..];
      CountMember(tokens[1..], token);
    }
  }

  /** What the parser has gathered: the modifiers held so far and the key. */
  datatype Gathered = Gathered(ctrl: bool, alt: bool, shift: bool, superHeld: bool, key: Option<KeyName>)

  predicate Scanned(seen: seq<string>, g: Gathered) {
    && Count(seen, Blank) == 0
    && Count(seen, Mod(Ctrl)) == (if g.ctrl then 1 else 0)
    && Count(seen, Mod(Alt)) == (if g.alt then 1 else 0)
    && Count(seen, Mod(Shift)) == (if g.shift then 1 else 0)
    && Count(seen, Mod(Super)) == (if g.superHeld then 1 else 0)
    && Count(seen, Key) == (if g.key.Some? then 1 else 0)
    && (g.key.Some? ==> KeyOf(TheKey(seen)) == g.key)
  }

  /** `h` is `g` after one more segment that does not repeat anything. */
  predicate Gathers(g: Gathered, token: string, h: Gathered) {
    match KindOf(token)
    case Blank => false
    case Mod(Ctrl) => !g.ctrl && h == g.(ctrl := true)
    case Mod(Alt) => !g.alt && h == g.(alt := true)
    case Mod(Shift) => !g.shift && h == g.(shift := true)
    case Mod(Super) => !g.superHeld && h == g.(superHeld := true)
    case Key => g.key.None? && h == g.(key := KeyOf(token)) && h.key.Some?
  }

  lemma ScannedNext(tokens: seq<string>, i: nat, g: Gathered, h: Gathered)
    requires i < |tokens| && Scanned(tokens[..i], g) && Gathers(g, tokens[i], h)
    ensures Scanned(tokens[..i + 1], h)
  {
    CountNext(tokens, i);
    assert tokens[..i + 1] == tokens[..i] + [tokens[i]];
    if h.key.Some? {
      if KindOf(tokens[i]) == Key {
        TheKeyIs(tokens[..i + 1], tokens[i]);
      } else {
        TheKeyMember(tokens[..i]);
        TheKeyIs(tokens[..i + 1], TheKey(tokens[..i]));
      }
    }
  }

  lemma Repeats(tokens: seq<string>, i: nat, k: Kind)
    requires i < |tokens| && KindOf(tokens[i]) == k
    ensures Count(tokens, k) >= 1 + Count(tokens[..i], k)
  {
    CountNext(tokens, i);
  }

  lemma UnknownKeyRefuses(tokens: seq<string>, token: string)
    requires token in tokens && KindOf(token) == Key && KeyOf(token).None?
    ensures ChordOfTokens(tokens).None?
  {
    if Count(tokens, Key) == 1 {
      TheKeyIs(tokens, token);
    }
  }

  /** What makes the parser stop at a segment. */
  predicate StopsAt(g: Gathered, token: string, e: ChordError) {
    match e
    case EmptySegment => token == []
    case RepeatedModifier(Ctrl) => KindOf(token) == Mod(Ctrl) && g.ctrl
    case RepeatedModifier(Alt) => KindOf(token) == Mod(Alt) && g.alt
    case RepeatedModifier(Shift) => KindOf(token) == Mod(Shift) && g.shift
    case RepeatedModifier(Super) => KindOf(token) == Mod(Super) && g.superHeld
    case ManyKeys => KindOf(token) == Key && g.key.Some?
    case UnknownKey(t) => t == token && KindOf(token) == Key && g.key.None? && KeyOf(token).None?
    case _ => false
  }

  lemma ScannedIsClean(seen: seq<string>, g: Gathered)
    requires Scanned(seen, g)
    ensures Clean(seen)
  {
  }

  lemma Faulted(tokens: seq<string>, i: nat, g: Gathered, e: ChordError)
    requires i < |tokens| && Scanned(tokens[..i], g) && StopsAt(g, tokens[i], e)
    ensures FaultAt(tokens, i, e) && ChordOfTokens(tokens).None?
  {
    ScannedIsClean(tokens[..i], g);
    Repeats(tokens, i, KindOf(tokens[i]));
    if e.UnknownKey? {
      UnknownKeyRefuses(tokens, tokens[i]);
    }
  }

  /** `Chord::parse`: one pass over the segments, setting flags. */
  method ParseChord(raw: string) returns (r: Result<Chord, ChordError>)
    ensures r.Ok? ==> ChordOf(raw) == Some(r.value)
    ensures r.Err? ==> ChordOf(raw) == None && Blames(raw, r.error)
  {
    var trimmed := Trim(Rust, raw);
    if trimmed == [] {
      return Err(Empty);
    }
    if ByteLen(trimmed) > MAX_CHORD_LEN {
      return Err(TooLong);
    }
    var ctrl, alt, shift, superHeld := false, false, false, false;
    var key: Option<KeyName> := None;
    var parts := Split(trimmed, '+');
    ghost var tokens := Tokens(trimmed);
    for i := 0 to |parts|
      invariant Scanned(tokens[..i], Gathered(ctrl, alt, shift, superHeld, key))
    {
      var token := TokenOf(parts[i]);
      ghost var before := Gathered(ctrl, alt, shift, superHeld, key);
      assert token == tokens[i];
      if token == [] {
        Faulted(tokens, i, before, EmptySegment);
        return Err(EmptySegment);
      }
      match ModifierOf(token) {
        case Some(Ctrl) =>
          if ctrl {
            Faulted(tokens, i, before, RepeatedModifier(Ctrl));
            return Err(RepeatedModifier(Ctrl));
          }
          ctrl := true;
        case Some(Alt) =>
          if alt {
            Faulted(tokens, i, before, RepeatedModifier(Alt));
            return Err(RepeatedModifier(Alt));
          }
          alt := true;
        case Some(Shift) =>
          if shift {
            Faulted(tokens, i, before, RepeatedModifier(Shift));
            return Err(RepeatedModifier(Shift));
          }
          shift := true;
        case Some(Super) =>
          if superHeld {
            Faulted(tokens, i, before, RepeatedModifier(Super));
            return Err(RepeatedModifier(Super));
          }
          superHeld := true;
        case None =>
          if key != None {
            Faulted(tokens, i, before, ManyKeys);
            return Err(ManyKeys);
          }
          key := KeyOf(token);
          if key == None {
            Faulted(tokens, i, before, UnknownKey(token));
            return Err(UnknownKey(token));
          }
      }
      ScannedNext(tokens, i, before, Gathered(ctrl, alt, shift, superHeld, key));
    }
    assert tokens[..|tokens|] == tokens;
    ScannedIsClean(tokens, Gathered(ctrl, alt, shift, superHeld, key));
    if key == None {
      return Err(OnlyModifiers);
    }
    if key.value.Char? && !(ctrl || alt || shift || superHeld) {
      CountsCoverTokens(tokens);
      return Err(BareCharacter);
    }
    return Ok(Chord(ctrl, alt, shift, superHeld, key.value));
  }

  lemma {:induction false} CountsCoverTokens(tokens: seq<string>)
    ensures |tokens| == Count(tokens, Blank) + Count(tokens, Mod(Ctrl)) + Count(tokens, Mod(Alt))
                      + Count(tokens, Mod(Shift)) + Count(tokens, Mod(Super)) + Count(tokens, Key)
  {
    if tokens == [] {
    } else {
      CountsCoverTokens(tokens[1..]);
    }
  }

  lemma FaultSpoils(tokens: seq<string>, i: nat, e: ChordError, j: nat)
    requires FaultAt(tokens, i, e) && i < j <= |tokens|
    ensures !Clean(tokens[..j])
  {
    var s := tokens[..j];
    assert s[..i] == tokens[..i] && s[i] == tokens[i];
    Repeats(s, i, KindOf(s[i]));
    if e.UnknownKey? && Count(s, Key) == 1 {
      TheKeyIs(s, s[i]);
    }
  }

  /** A refused string has one refusal. */
  lemma BlameUnique(raw: string, e: ChordError, f: ChordError)
    requires Blames(raw, e) && Blames(raw, f)
    ensures e == f
  {
    var tokens := Tokens(Trim(Rust, raw));
    assert tokens[..|tokens|] == tokens;
    assert ByteLen([]) == 0;
    if IsFault(e) && IsFault(f) {
      var i: nat :| FaultAt(tokens, i, e);
      var j: nat :| FaultAt(tokens, j, f);
      SameFault(tokens, i, e, j, f);
    } else if IsFault(e) {
      var i: nat :| FaultAt(tokens, i, e);
      FaultSpoils(tokens, i, e, |tokens|);
    } else if IsFault(f) {
      var j: nat :| FaultAt(tokens, j, f);
      FaultSpoils(tokens, j, f, |tokens|);
    }
  }

  /** Up to any segment, either a first fault has shown or all is clean. */
  lemma {:induction false} FaultOrClean(tokens: seq<string>, n: nat)
    requires n <= |tokens|
    ensures Clean(tokens[..n]) || exists i: nat, e :: i < n && FaultAt(tokens, i, e)
  {
    if n == 0 {
      assert tokens[..0] == [];
    } else {
      FaultOrClean(tokens, n - 1);
      if Clean(tokens[..n - 1]) {
        CleanOrFault(tokens, n - 1);
      }
    }
  }

  lemma CleanOrFault(tokens: seq<string>, i: nat)
    requires i < |tokens| && Clean(tokens[..i])
    ensures Clean(tokens[..i + 1]) || exists e :: FaultAt(tokens, i, e)
  {
    CountNext(tokens, i);
    var token := tokens[i];
    match KindOf(token)
    case Blank =>
      assert FaultAt(tokens, i, EmptySegment);
    case Mod(m) =>
      if Count(tokens[..i], Mod(m)) == 1 {
        assert FaultAt(tokens, i, RepeatedModifier(m));
      } else {
        SameKeySoFar(tokens, i);
        KnownModifiers(tokens[..i], m);
      }
    case Key =>
      if Count(tokens[..i], Key) == 1 {
        assert FaultAt(tokens, i, ManyKeys);
      } else if KeyOf(token).None? {
        assert FaultAt(tokens, i, UnknownKey(token));
      } else {
        TheKeyIs(tokens[..i + 1], token);
      }
  }

  lemma KnownModifiers(seen: seq<string>, m: Modifier)
    requires Clean(seen)
    ensures Count(seen, Mod(m)) <= 1
  {
    match m
    case Ctrl =>
    case Alt =>
    case Shift =>
    case Super =>
  }

  lemma SameKeySoFar(tokens: seq<string>, i: nat)
    requires i < |tokens| && KindOf(tokens[i]) != Key && Count(tokens[..i], Key) <= 1
    ensures Count(tokens[..i + 1], Key) == Count(tokens[..i], Key)
    ensures Count(tokens[..i], Key) == 1 ==> TheKey(tokens[..i + 1]) == TheKey(tokens[..i])
  {
    CountNext(tokens, i);
    assert tokens[..i + 1] == tokens[..i] + [tokens[i]];
    if Count(tokens[..i], Key) == 1 {
      TheKeyMember(tokens[..i]);
      TheKeyIs(tokens[..i + 1], TheKey(tokens[..i]));
    }
  }

  /** A clean chord with a key is refused only for a bare character. */
  lemma CleanRefusal(tokens: seq<string>)
    requires Clean(tokens) && Count(tokens, Key) == 1
    ensures ChordOfTokens(tokens).None? <==> |tokens| == 1 && KeyOf(TheKey(tokens)).value.Char?
  {
    CountsCoverTokens(tokens);
  }

  lemma FaultRefuses(tokens: seq<string>, i: nat, e: ChordError)
    requires FaultAt(tokens, i, e)
    ensures ChordOfTokens(tokens).None?
  {
    FaultSpoils(tokens, i, e, |tokens|);
    assert tokens[..|tokens|] == tokens;
  }

  /** A string is refused exactly when there is something to blame it for. */
  lemma RefusedExactly(raw: string)
    ensures (exists e :: Blames(raw, e)) <==> ChordOf(raw).None?
  {
    var t := Trim(Rust, raw);
    var tokens := Tokens(t);
    if !FitsBound(t) {
      assert Blames(raw, if t == [] then Empty else TooLong);
    } else {
      assert tokens[..|tokens|] == tokens;
      FaultOrClean(tokens, |tokens|);
      if i: nat, e :| FaultAt(tokens, i, e) {
        FaultRefuses(tokens, i, e);
        assert IsFault(e) && Blames(raw, e);
      } else if Count(tokens, Key) == 0 {
        assert Blames(raw, OnlyModifiers);
      } else {
        CleanRefusal(tokens);
        assert ChordOf(raw).None? ==> Blames(raw, BareCharacter);
      }
    }
  }

  predicate IsFault(e: ChordError) { e.EmptySegment? || e.RepeatedModifier? || e.ManyKeys? || e.UnknownKey? }

  lemma SameFault(tokens: seq<string>, i: nat, e: ChordError, j: nat, f: ChordError)
    requires FaultAt(tokens, i, e) && FaultAt(tokens, j, f)
    ensures e == f
  {
    if i < j {
      FaultSpoils(tokens, i, e, j);
    } else if j < i {
      FaultSpoils(tokens, j, f, i);
    }
  }

  // ---------------------------------------------------------------- order and case

  lemma {:induction false} CountPermuted(a: seq<string>, b: seq<string>, k: Kind)
    requires multiset(a) == multiset(b)
    ensures Count(a, k) == Count(b, k)
  {
    if a == [] {
      assert |b| == |multiset(b)| == 0;
    } else {
      var x := a[0];
      assert x in multiset(b);
      var j :| 0 <= j < |b| && b[j] == x;
      var rest := b[..j] + b[j + 1..];
      assert b == b[..j] + ([x] + b[j + 1..]);
      RemoveOne(a, b, j);
      CountPermuted(a[1..], rest, k);
      CountConcat(b[..j], [x] + b[j + 1..], k);
      CountConcat([x], b[j + 1..], k);
      CountConcat(b[..j], b[j + 1..], k);
      CountOne(x, k);
    }
  }

  /** Only the multiset of segments matters. */
  lemma TokensInAnyOrder(a: seq<string>, b: seq<string>)
    requires multiset(a) == multiset(b)
    ensures ChordOfTokens(a) == ChordOfTokens(b)
  {
    forall k ensures Count(a, k) == Count(b, k) {
      CountPermuted(a, b, k);
    }
    if Count(a, Key) == 1 {
      TheKeyMember(a);
      assert TheKey(a) in multiset(b);
      TheKeyIs(b, TheKey(a));
    }
  }

  lemma {:induction false} TheKeyMember(tokens: seq<string>)
    requires Count(tokens, Key) > 0
    ensures TheKey(tokens) in tokens && KindOf(TheKey(tokens)) == Key
  {
    if KindOf(tokens[0]) != Key {
      TheKeyMember(tokens[1..]);
    }
  }

  lemma SpacesLackPlus(s: string)
    requires AllSpace(Rust, s)
    ensures Lacks(s, '+')
  {
  }

  lemma PaddedPart(a: string, b: string, c: string, p: string, q: string)
    requires b == p + a && c == b + q && AllSpace(Rust, p) && AllSpace(Rust, q)
    ensures TokenOf(c) == TokenOf(a)
  {
    TrimPadded(Rust, p, a, q);
  }

  lemma TokensOfPadded(pre: string, s: string, post: string)
    requires AllSpace(Rust, pre) && AllSpace(Rust, post)
    ensures Tokens(pre + s + post) == Tokens(s)
  {
    SpacesLackPlus(pre);
    SpacesLackPlus(post);
    var a, b, c := Split(s, '+'), Split(pre + s, '+'), Split(pre + s + post, '+');
    SplitPadStart(pre, s, '+');
    SplitPadEnd(pre + s, post, '+');
    var n := |a| - 1;
    forall i | 0 <= i <= n ensures TokenOf(c[i]) == TokenOf(a[i]) {
      PaddedPart(a[i], b[i], c[i], if i == 0 then pre else [], if i == n then post else []);
    }
  }

  /** Trimming the whole chord first makes no difference to its segments. */
  lemma ChordOfRawTokens(raw: string)
    requires ByteLen(Trim(Rust, raw)) <= MAX_CHORD_LEN
    ensures ChordOf(raw) == ChordOfTokens(Tokens(raw))
  {
    var t := Trim(Rust, raw);
    var pre, post := TrimShape(Rust, raw);
    TokensOfPadded(pre, t, post);
    if t == [] {
      assert Tokens(t) == [[]];
      CountOne([], Blank);
    }
  }

  /** The trimmed lowered segments decide, in whatever order. */
  lemma SegmentsDecide(a: string, b: string)
    requires multiset(Tokens(a)) == multiset(Tokens(b))
    requires ByteLen(Trim(Rust, a)) <= MAX_CHORD_LEN && ByteLen(Trim(Rust, b)) <= MAX_CHORD_LEN
    ensures ChordOf(a) == ChordOf(b)
  {
    ChordOfRawTokens(a);
    ChordOfRawTokens(b);
    TokensInAnyOrder(Tokens(a), Tokens(b));
  }

  lemma TokensOfLower(s: string)
    ensures Tokens(Lower(s)) == Tokens(s)
  {
    SplitLower(s);
    var parts := Split(s, '+');
    forall i | 0 <= i < |parts| ensures TokenOf(Lower(parts[i])) == TokenOf(parts[i]) {
      TrimLower(Rust, parts[i]);
      LowerIsLower(Trim(Rust, parts[i]));
    }
  }

  lemma LoweredFirst(raw: string)
    ensures ChordOf(Lower(raw)) == ChordOf(raw)
    ensures forall e :: Blames(Lower(raw), e) <==> Blames(raw, e)
  {
    TrimLower(Rust, raw);
    TokensOfLower(Trim(Rust, raw));
    ByteLenLower(Trim(Rust, raw));
  }

  /** Letter case never shows: re-casing a string anywhere gives the same chord
      or the very same refusal. */
  lemma CaseIgnored(a: string, b: string)
    requires Lower(a) == Lower(b)
    ensures ChordOf(a) == ChordOf(b)
    ensures forall e :: Blames(a, e) <==> Blames(b, e)
  {
    LoweredFirst(a);
    LoweredFirst(b);
  }

  /** `y` is `x` in some other case, with blanks around it. */
  ghost predicate Respells(x: string, y: string) {
    exists pre: string, mid: string, post: string ::
      AllSpace(Rust, pre) && AllSpace(Rust, post) && Lower(mid) == Lower(x) && y == pre + mid + post
  }

  lemma RespelledToken(x: string, y: string)
    requires Respells(x, y) && Lacks(x, '+')
    ensures TokenOf(y) == TokenOf(x) && Lacks(y, '+')
  {
    var pre, mid, post :| AllSpace(Rust, pre) && AllSpace(Rust, post) && Lower(mid) == Lower(x)
                          && y == pre + mid + post;
    TrimPadded(Rust, pre, mid, post);
    TrimLower(Rust, mid);
    TrimLower(Rust, x);
    SpacesLackPlus(pre);
    SpacesLackPlus(post);
    forall i | 0 <= i < |mid| ensures mid[i] != '+' {
      LowerCharFixes(mid[i]);
      LowerCharFixes(x[i]);
      assert Lower(mid)[i] == Lower(x)[i];
    }
  }

  lemma TokensOfJoined(parts: seq<string>)
    requires parts != [] && forall i :: 0 <= i < |parts| ==> Lacks(parts[i], '+')
    ensures Tokens(Join(parts, '+')) == Map(TokenOf, parts)
  {
    SplitOfJoin(parts, '+');
  }

  lemma RespelledTokens(r: seq<string>, q: seq<string>)
    requires |r| == |q| && forall i :: 0 <= i < |r| ==> Respells(r[i], q[i]) && Lacks(r[i], '+')
    ensures Map(TokenOf, q) == Map(TokenOf, r)
    ensures forall i :: 0 <= i < |q| ==> Lacks(q[i], '+')
  {
    forall i | 0 <= i < |r| ensures TokenOf(q[i]) == TokenOf(r[i]) && Lacks(q[i], '+') {
      RespelledToken(r[i], q[i]);
    }
  }

  lemma PermutedParts(p: seq<string>, r: seq<string>)
    requires multiset(p) == multiset(r) && forall i :: 0 <= i < |p| ==> Lacks(p[i], '+')
    ensures forall i :: 0 <= i < |r| ==> Lacks(r[i], '+')
  {
    forall i | 0 <= i < |r| ensures r[i] in p {
      assert r[i] in multiset(r);
    }
  }

  /** Permuting the '+'-separated parts of a chord, re-casing them and putting
      blanks around them gives the same chord, or both are refused, as long as
      both spellings fit. */
  lemma OrderAndCaseIgnored(p: seq<string>, r: seq<string>, q: seq<string>)
    requires p != [] && q != [] && forall i :: 0 <= i < |p| ==> Lacks(p[i], '+')
    requires multiset(p) == multiset(r)
    requires |r| == |q| && forall i :: 0 <= i < |r| ==> Respells(r[i], q[i])
    requires ByteLen(Trim(Rust, Join(p, '+'))) <= MAX_CHORD_LEN && ByteLen(Trim(Rust, Join(q, '+'))) <= MAX_CHORD_LEN
    ensures ChordOf(Join(p, '+')) == ChordOf(Join(q, '+'))
  {
    PermutedParts(p, r);
    RespelledTokens(r, q);
    TokensOfJoined(p);
    TokensOfJoined(q);
    MapPermuted(TokenOf, p, r);
    SegmentsDecide(Join(p, '+'), Join(q, '+'));
  }

  lemma NoSuchKey()
    ensures KindOf("zz") == Key && KeyOf("zz").None?
  {
  }

  predicate FirstIsAtFault(parts: seq<string>, e: ChordError) {
    && parts != []
    && ((e.EmptySegment? && parts[0] == [])
        || (e == UnknownKey(parts[0]) && KindOf(parts[0]) == Key && KeyOf(parts[0]).None?))
  }

  lemma FaultFirst(parts: seq<string>, e: ChordError)
    requires FirstIsAtFault(parts, e)
    ensures FaultAt(parts, 0, e)
  {
    assert parts[..0] == [];
  }

  lemma TokensOfFolded(parts: seq<string>)
    requires parts != [] && forall i :: 0 <= i < |parts| ==> Lacks(parts[i], '+') && TokenOf(parts[i]) == parts[i]
    ensures Tokens(Join(parts, '+')) == parts
  {
    TokensOfJoined(parts);
    var mapped := Map(TokenOf, parts);
    assert forall i :: 0 <= i < |parts| ==> mapped[i] == parts[i];
  }

  lemma BlamesFirst(raw: string, parts: seq<string>, e: ChordError)
    requires FirstIsAtFault(parts, e)
    requires forall i :: 0 <= i < |parts| ==> Lacks(parts[i], '+') && TokenOf(parts[i]) == parts[i]
    requires raw == Join(parts, '+') && Trim(Rust, raw) == raw && FitsBound(raw)
    ensures Blames(raw, e)
  {
    TokensOfFolded(parts);
    FaultFirst(parts, e);
  }

  lemma BlankFirst()
    ensures Blames("+zz", EmptySegment)
  {
    TrimOfTrimmed(Rust, "+zz");
    TrimOfTrimmed(Rust, "zz");
    LowerOfLower("zz");
    ByteLenAscii("+zz");
    assert Join([[], "zz"], '+') == "+zz";
    BlamesFirst("+zz", [[], "zz"], EmptySegment);
  }

  lemma UnknownFirst()
    ensures Blames("zz+", UnknownKey("zz"))
  {
    NoSuchKey();
    TrimOfTrimmed(Rust, "zz+");
    TrimOfTrimmed(Rust, "zz");
    LowerOfLower("zz");
    ByteLenAscii("zz+");
    assert Join(["zz", []], '+') == "zz+";
    BlamesFirst("zz+", ["zz", []], UnknownKey("zz"));
  }

  /** Reordering can change which fault a refusal names. */
  lemma OrderShowsInRefusals()
    ensures Blames("+zz", EmptySegment) && ChordOf("+zz").None?
    ensures Blames("zz+", UnknownKey("zz")) && ChordOf("zz+").None?
  {
    BlankFirst();
    UnknownFirst();
    RefusedExactly("+zz");
    RefusedExactly("zz+");
  }

  // ---------------------------------------------------------------- which faults an order can show

  predicate UnknownKeySegment(token: string) { KindOf(token) == Key && KeyOf(token).None? }

  predicate KnownKeySegment(token: string) { KindOf(token) == Key && KeyOf(token).Some? }

  function RepeatedModifiers(tokens: seq<string>): set<Modifier> {
    set m | m in {Ctrl, Alt, Shift, Super} && Count(tokens, Mod(m)) > 1
  }

  /** The faults a list of segments leaves room for, read off its members and
      counts. */
  function PossibleFaults(tokens: seq<string>): set<ChordError> {
    (if [] in tokens then {EmptySegment} else {})
    + (set m | m in RepeatedModifiers(tokens) :: RepeatedModifier(m))
    + (if Count(tokens, Key) > 1 && (exists t :: t in tokens && KnownKeySegment(t)) then {ManyKeys} else {})
    + (set t | t in tokens && UnknownKeySegment(t) :: UnknownKey(t))
  }

  /** Membership, case by case. */
  predicate CanFault(tokens: seq<string>, e: ChordError) {
    match e
    case EmptySegment => [] in tokens
    case RepeatedModifier(m) => Count(tokens, Mod(m)) > 1
    case ManyKeys => Count(tokens, Key) > 1 && exists t :: t in tokens && KnownKeySegment(t)
    case UnknownKey(t) => t in tokens && UnknownKeySegment(t)
    case _ => false
  }

  lemma PossibleFaultsAre(tokens: seq<string>, e: ChordError)
    ensures e in PossibleFaults(tokens) <==> CanFault(tokens, e)
  {
    if e.RepeatedModifier? {
      match e.m
      case Ctrl =>
      case Alt =>
      case Shift =>
      case Super =>
    }
  }

  /** Some order of the segments shows fault `e` first. */
  ghost predicate ShownBySomeOrder(tokens: seq<string>, e: ChordError) {
    exists q: seq<string>, i: nat :: multiset(q) == multiset(tokens) && FaultAt(q, i, e)
  }

  lemma FaultIsPossible(tokens: seq<string>, i: nat, e: ChordError)
    requires FaultAt(tokens, i, e)
    ensures CanFault(tokens, e)
  {
    Repeats(tokens, i, KindOf(tokens[i]));
    assert tokens[i] in tokens;
    if e.ManyKeys? {
      TheKeyMember(tokens[..i]);
      assert TheKey(tokens[..i]) in tokens && KnownKeySegment(TheKey(tokens[..i]));
    }
  }

  lemma PossibleInAnyOrder(q: seq<string>, tokens: seq<string>, e: ChordError)
    requires multiset(q) == multiset(tokens) && CanFault(q, e)
    ensures CanFault(tokens, e)
  {
    assert forall t :: t in q ==> t in multiset(tokens);
    if e.RepeatedModifier? {
      CountPermuted(q, tokens, Mod(e.m));
    } else if e.ManyKeys? {
      CountPermuted(q, tokens, Key);
    }
  }

  /** The same list with segment `i` moved to the front. */
  function Fronted(s: seq<string>, i: nat): seq<string>
    requires i < |s|
  {
    [s[i]] + (s[..i] + s[i + 1..])
  }

  lemma FrontedPermutes(s: seq<string>, i: nat)
    requires i < |s|
    ensures multiset(Fronted(s, i)) == multiset(s)
  {
    assert s == s[..i] + ([s[i]] + s[i + 1..]);
  }

  lemma {:induction false} FindKind(s: seq<string>, k: Kind) returns (i: nat)
    requires Count(s, k) > 0
    ensures i < |s| && KindOf(s[i]) == k
  {
    if KindOf(s[0]) == k {
      i := 0;
    } else {
      var j := FindKind(s[1..], k);
      i := j + 1;
    }
  }

  /** Two segments of one kind, the first one given, moved to the front. */
  lemma TwoInFront(s: seq<string>, i: nat, k: Kind) returns (q: seq<string>)
    requires i < |s| && KindOf(s[i]) == k && Count(s, k) > 1
    ensures multiset(q) == multiset(s) && |q| >= 2 && q[0] == s[i] && KindOf(q[1]) == k
  {
    var rest := s[..i] + s[i + 1..];
    FrontedPermutes(s, i);
    CountPermuted(s, Fronted(s, i), k);
    CountConcat([s[i]], rest, k);
    CountOne(s[i], k);
    var j := FindKind(rest, k);
    FrontedPermutes(rest, j);
    q := [s[i]] + Fronted(rest, j);
    assert multiset(q) == multiset{s[i]} + multiset(rest) == multiset(Fronted(s, i));
  }

  lemma FirstOfTwo(q: seq<string>)
    requires |q| >= 2
    ensures q[..1] == [q[0]] && q[..0] == []
    ensures forall k :: Count(q[..1], k) == if KindOf(q[0]) == k then 1 else 0
  {
    forall k ensures Count(q[..1], k) == if KindOf(q[0]) == k then 1 else 0 {
      CountOne(q[0], k);
    }
  }

  /** A repeated modifier, or a key after a known one, faults in second place. */
  lemma SecondFaults(q: seq<string>, e: ChordError)
    requires |q| >= 2 && KindOf(q[1]) == KindOf(q[0])
    requires (e.RepeatedModifier? && KindOf(q[0]) == Mod(e.m)) || (e.ManyKeys? && KnownKeySegment(q[0]))
    ensures FaultAt(q, 1, e)
  {
    FirstOfTwo(q);
  }

  lemma PossibleIsShown(tokens: seq<string>, e: ChordError)
    requires CanFault(tokens, e)
    ensures ShownBySomeOrder(tokens, e)
  {
    if e.EmptySegment? || e.UnknownKey? {
      var t := if e.EmptySegment? then [] else e.token;
      var i: nat :| i < |tokens| && tokens[i] == t;
      FrontedPermutes(tokens, i);
      FaultFirst(Fronted(tokens, i), e);
    } else if e.RepeatedModifier? {
      var i := FindKind(tokens, Mod(e.m));
      var q := TwoInFront(tokens, i, Mod(e.m));
      SecondFaults(q, e);
    } else {
      var t :| t in tokens && KnownKeySegment(t);
      var i: nat :| i < |tokens| && tokens[i] == t;
      var q := TwoInFront(tokens, i, Key);
      SecondFaults(q, e);
    }
  }

  /** The faults the orders of a list can show are exactly the possible ones. */
  lemma ShownFaultsExactly(tokens: seq<string>, e: ChordError)
    ensures ShownBySomeOrder(tokens, e) <==> e in PossibleFaults(tokens)
  {
    PossibleFaultsAre(tokens, e);
    if ShownBySomeOrder(tokens, e) {
      var q, i: nat :| multiset(q) == multiset(tokens) && FaultAt(q, i, e);
      FaultIsPossible(q, i, e);
      PossibleInAnyOrder(q, tokens, e);
    }
    if CanFault(tokens, e) {
      PossibleIsShown(tokens, e);
    }
  }

  lemma TwoMembers<T>(s: set<T>)
    ensures |s| > 1 <==> exists x, y :: x in s && y in s && x != y
  {
    if |s| > 1 {
      var x :| x in s;
      var rest := s - {x};
      assert |rest| > 0;
      var y :| y in rest;
      assert x in s && y in s && x != y;
    }
    if x, y :| x in s && y in s && x != y {
      assert {x, y} <= s;
      SubsetSize({x, y}, s);
    }
  }

  lemma {:induction false} SubsetSize<T>(a: set<T>, b: set<T>)
    requires a <= b
    ensures |a| <= |b|
  {
    if a == {} {
    } else {
      var x :| x in a;
      SubsetSize(a - {x}, b - {x});
    }
  }

  /** The order of the segments shows in the fault exactly when they leave room
      for two faults. */
  lemma OrderShowsExactly(tokens: seq<string>)
    ensures (exists e, f :: ShownBySomeOrder(tokens, e) && ShownBySomeOrder(tokens, f) && e != f)
       <==> |PossibleFaults(tokens)| > 1
  {
    forall e ensures ShownBySomeOrder(tokens, e) <==> e in PossibleFaults(tokens) {
      ShownFaultsExactly(tokens, e);
    }
    TwoMembers(PossibleFaults(tokens));
    if e, f :| ShownBySomeOrder(tokens, e) && ShownBySomeOrder(tokens, f) && e != f {
      assert e in PossibleFaults(tokens) && f in PossibleFaults(tokens);
    }
    if e, f :| e in PossibleFaults(tokens) && f in PossibleFaults(tokens) && e != f {
      assert ShownBySomeOrder(tokens, e) && ShownBySomeOrder(tokens, f);
    }
  }

  // ---------------------------------------------------------------- the printer

  function KeyText(key: KeyName): string {
    match key
    case Tab => "tab"
    case Enter => "enter"
    case Escape => "escape"
    case Space => "space"
    case Backspace => "backspace"
    case Delete => "delete"
    case Insert => "insert"
    case Home => "home"
    case End => "end"
    case PageUp => "pageup"
    case PageDown => "pagedown"
    case Up => "up"
    case Down => "down"
    case Left => "left"
    case Right => "right"
    case F(n) => "f" + Decimal(n)
    case Char(c) => [c]
  }

  function Segment(word: string, held: bool, rest: string): string {
    if held then word + ['+'] + rest else rest
  }

  /** The held modifiers in ctrl, alt, shift, super order, then `key`. */
  function Printed(c: Chord, key: string): string {
    Segment("ctrl", c.ctrl, Segment("alt", c.alt, Segment("shift", c.shift, Segment("super", c.superHeld, key))))
  }

  /** `Chord::canonical`. */
  function Canonical(c: Chord): string { Printed(c, KeyText(c.key)) }

  /** What the parser can return: keys it knows, characters lowered and never
      bare. */
  predicate ValidKey(key: KeyName) {
    match key
    case F(n) => 1 <= n <= 35
    case Char(c) => IsAsciiGraphic(c) && LowerChar(c) == c
    case _ => true
  }

  predicate ValidChord(c: Chord) { ValidKey(c.key) && (c.key.Char? ==> Held(c)) }

  lemma ParsedIsValid(raw: string)
    requires ChordOf(raw).Some?
    ensures ValidChord(ChordOf(raw).value)
  {
    KeyOfIsValid(TheKey(Tokens(Trim(Rust, raw))));
  }

  lemma KeyOfIsValid(token: string)
    requires KeyOf(token).Some?
    ensures ValidKey(KeyOf(token).value)
  {
  }

  function ModTokens(c: Chord): seq<string> {
    Present("ctrl", c.ctrl) + (Present("alt", c.alt) + (Present("shift", c.shift) + Present("super", c.superHeld)))
  }

  lemma SplitSegment(word: string, held: bool, rest: string)
    requires Lacks(word, '+')
    ensures Split(Segment(word, held, rest), '+') == Present(word, held) + Split(rest, '+')
  {
    if held {
      SplitAtSeparator(word, '+', rest);
    }
  }

  function Present(word: string, held: bool): seq<string> { if held then [word] else [] }

  lemma SplitSegments(w: seq<string>, h: seq<bool>, k: string)
    requires |w| == |h| == 4 && forall i :: 0 <= i < 4 ==> Lacks(w[i], '+')
    ensures Split(Segment(w[0], h[0], Segment(w[1], h[1], Segment(w[2], h[2], Segment(w[3], h[3], k)))), '+')
         == Present(w[0], h[0]) + (Present(w[1], h[1]) + (Present(w[2], h[2]) + Present(w[3], h[3]))) + Split(k, '+')
  {
    var s3 := Segment(w[3], h[3], k);
    var s2 := Segment(w[2], h[2], s3);
    var s1 := Segment(w[1], h[1], s2);
    SplitSegment(w[3], h[3], k);
    SplitSegment(w[2], h[2], s3);
    SplitSegment(w[1], h[1], s2);
    SplitSegment(w[0], h[0], s1);
    Regroup(Present(w[0], h[0]), Present(w[1], h[1]), Present(w[2], h[2]), Present(w[3], h[3]), Split(k, '+'));
  }

  lemma Regroup(a: seq<string>, b: seq<string>, c: seq<string>, d: seq<string>, e: seq<string>)
    ensures a + (b + (c + (d + e))) == a + (b + (c + d)) + e
  {
    assert b + (c + (d + e)) == b + (c + d) + e;
  }

  /** The segments of a printed chord. */
  lemma SplitPrinted(c: Chord, k: string)
    ensures Split(Printed(c, k), '+') == ModTokens(c) + Split(k, '+')
  {
    SplitSegments(["ctrl", "alt", "shift", "super"], [c.ctrl, c.alt, c.shift, c.superHeld], k);
  }

  lemma SplitKeyText(key: KeyName)
    ensures KeyText(key) != []
    ensures Split(KeyText(key), '+') == if key == Char('+') then [[], []] else [KeyText(key)]
  {
    if key == Char('+') {
      assert Split([], '+') == [[]];
    } else {
      assert Lacks(KeyText(key), '+');
      SplitOfLacking(KeyText(key), '+');
    }
  }

  lemma NamedKeyRoundTrip(key: KeyName)
    requires !key.F? && !key.Char?
    ensures NamedKey(KeyText(key)) == Some(key)
  {
  }

  lemma LetterFNamesNothing(t: string)
    requires t != [] && t[0] == 'f'
    ensures NamedKey(t).None? && !IsModifierName(t)
  {
  }

  lemma FunctionKeyText(n: nat)
    ensures NamedKey(KeyText(F(n))).None? && !IsModifierName(KeyText(F(n)))
    ensures KeyText(F(n))[0] == 'f' && KeyText(F(n))[1..] == Decimal(n)
  {
    LetterFNamesNothing(KeyText(F(n)));
  }

  predicate IsNamed(key: KeyName) { !key.F? && !key.Char? }

  lemma NamedInjective(a: KeyName, b: KeyName)
    requires IsNamed(a) && IsNamed(b) && KeyText(a) == KeyText(b)
    ensures a == b
  {
    NamedKeyRoundTrip(a);
    NamedKeyRoundTrip(b);
  }

  lemma FunctionKeysInjective(m: nat, n: nat)
    requires KeyText(F(m)) == KeyText(F(n))
    ensures m == n
  {
    FunctionKeyText(m);
    FunctionKeyText(n);
    DecimalRoundTrip(m);
    DecimalRoundTrip(n);
  }

  lemma NamedIsNoFunctionKey(a: KeyName, n: nat)
    requires IsNamed(a)
    ensures KeyText(a) != KeyText(F(n))
  {
    NamedKeyRoundTrip(a);
    FunctionKeyText(n);
  }

  /** Only character keys print as one character. */
  lemma OneCharacter(key: KeyName)
    ensures |KeyText(key)| == 1 <==> key.Char?
  {
  }

  lemma KeyTextInjective(a: KeyName, b: KeyName)
    requires KeyText(a) == KeyText(b)
    ensures a == b
  {
    OneCharacter(a);
    OneCharacter(b);
    if a.Char? {
      SameCharacter(a, b);
    } else if a.F? && b.F? {
      FunctionKeysInjective(a.n, b.n);
    } else if a.F? {
      NamedIsNoFunctionKey(b, a.n);
    } else if b.F? {
      NamedIsNoFunctionKey(a, b.n);
    } else {
      NamedInjective(a, b);
    }
  }

  lemma SameCharacter(a: KeyName, b: KeyName)
    requires a.Char? && b.Char? && KeyText(a) == KeyText(b)
    ensures a == b
  {
    assert KeyText(a)[0] == a.c && KeyText(b)[0] == b.c;
  }

  lemma ModTokensTell(c: Chord)
    ensures c.ctrl <==> "ctrl" in ModTokens(c)
    ensures c.alt <==> "alt" in ModTokens(c)
    ensures c.shift <==> "shift" in ModTokens(c)
    ensures c.superHeld <==> "super" in ModTokens(c)
  {
  }

  lemma SplitLast(m: seq<string>, k: seq<string>, n: seq<string>, l: seq<string>)
    requires m + k == n + l && |k| == |l|
    ensures m == n && k == l
  {
    assert (m + k)[..|m|] == m && (n + l)[..|m|] == n;
    assert (m + k)[|m|..] == k && (n + l)[|m|..] == l;
  }

  lemma LastOfConcat(m: seq<string>, k: seq<string>)
    requires k != []
    ensures (m + k)[|m + k| - 1] == k[|k| - 1]
  {
  }

  lemma SameSegments(m: seq<string>, a: KeyName, n: seq<string>, b: KeyName)
    requires m + Split(KeyText(a), '+') == n + Split(KeyText(b), '+')
    ensures m == n && a == b
  {
    var k, l := Split(KeyText(a), '+'), Split(KeyText(b), '+');
    SplitKeyText(a);
    SplitKeyText(b);
    LastOfConcat(m, k);
    LastOfConcat(n, l);
    SplitLast(m, k, n, l);
    if a != Char('+') {
      KeyTextInjective(a, b);
    }
  }

  /** The canonical spelling identifies the chord: no two chords share one,
      whatever their keys. This is what makes string-keyed merging sound. */
  lemma CanonicalInjective(a: Chord, b: Chord)
    requires Canonical(a) == Canonical(b)
    ensures a == b
  {
    SplitPrinted(a, KeyText(a.key));
    SplitPrinted(b, KeyText(b.key));
    SameSegments(ModTokens(a), a.key, ModTokens(b), b.key);
    ModTokensTell(a);
    ModTokensTell(b);
  }

  // ---------------------------------------------------------------- round trip

  /** Visible lower-case ASCII: nothing to trim, nothing to lower. */
  predicate Plain(s: string) {
    forall i :: 0 <= i < |s| ==> IsAsciiGraphic(s[i]) && LowerChar(s[i]) == s[i]
  }

  lemma PlainFacts(s: string)
    requires Plain(s)
    ensures Trim(Rust, s) == s && Lower(s) == s && ByteLen(s) == |s| && TokenOf(s) == s
  {
    TrimOfTrimmed(Rust, s);
    ByteLenAscii(s);
  }

  lemma SegmentPlain(word: string, held: bool, rest: string)
    requires Plain(word) && Plain(rest)
    ensures Plain(Segment(word, held, rest)) && |Segment(word, held, rest)| <= |word| + 1 + |rest|
  {
  }

  lemma PrintedPlain(c: Chord, k: string)
    requires Plain(k)
    ensures Plain(Printed(c, k)) && |Printed(c, k)| <= 21 + |k|
  {
    var s1 := Segment("super", c.superHeld, k);
    var s2 := Segment("shift", c.shift, s1);
    SegmentPlain("super", c.superHeld, k);
    SegmentPlain("shift", c.shift, s1);
    SegmentPlain("alt", c.alt, s2);
    SegmentPlain("ctrl", c.ctrl, Segment("alt", c.alt, s2));
  }

  lemma PresentCount(word: string, held: bool, m: Modifier, k: Kind)
    requires KindOf(word) == Mod(m)
    ensures Count(Present(word, held), k) == if held && k == Mod(m) then 1 else 0
  {
    CountOne(word, k);
  }

  /** A modifier kind is one of four, so the four contributions add up to one. */
  lemma HeldOnce(c: Chord, k: Kind)
    ensures (if c.ctrl && k == Mod(Ctrl) then 1 else 0) + (if c.alt && k == Mod(Alt) then 1 else 0)
            + (if c.shift && k == Mod(Shift) then 1 else 0) + (if c.superHeld && k == Mod(Super) then 1 else 0)
         == if k.Mod? && HeldBy(c, k.m) then 1 else 0
  {
    if k.Mod? {
      match k.m
      case Ctrl =>
      case Alt =>
      case Shift =>
      case Super =>
    }
  }

  lemma CountPresent(w0: string, w1: string, w2: string, w3: string, c: Chord, k: Kind)
    requires KindOf(w0) == Mod(Ctrl) && KindOf(w1) == Mod(Alt) && KindOf(w2) == Mod(Shift) && KindOf(w3) == Mod(Super)
    ensures Count(Present(w0, c.ctrl) + (Present(w1, c.alt) + (Present(w2, c.shift) + Present(w3, c.superHeld))), k)
         == if k.Mod? && HeldBy(c, k.m) then 1 else 0
  {
    var p0, p1, p2, p3 := Present(w0, c.ctrl), Present(w1, c.alt), Present(w2, c.shift), Present(w3, c.superHeld);
    CountConcat(p0, p1 + (p2 + p3), k);
    CountConcat(p1, p2 + p3, k);
    CountConcat(p2, p3, k);
    PresentCount(w0, c.ctrl, Ctrl, k);
    PresentCount(w1, c.alt, Alt, k);
    PresentCount(w2, c.shift, Shift, k);
    PresentCount(w3, c.superHeld, Super, k);
    HeldOnce(c, k);
  }

  lemma ModifierWords()
    ensures KindOf("ctrl") == Mod(Ctrl) && KindOf("alt") == Mod(Alt)
    ensures KindOf("shift") == Mod(Shift) && KindOf("super") == Mod(Super)
  {
  }

  lemma CountModTokens(c: Chord, k: Kind)
    ensures Count(ModTokens(c), k) == if k.Mod? && HeldBy(c, k.m) then 1 else 0
  {
    ModifierWords();
    CountPresent("ctrl", "alt", "shift", "super", c, k);
  }

  lemma TokensOfPrinted(c: Chord, k: string)
    requires Plain(k)
    ensures Trim(Rust, Printed(c, k)) == Printed(c, k)
    ensures ByteLen(Printed(c, k)) <= 21 + |k|
    ensures Tokens(Printed(c, k)) == ModTokens(c) + Split(k, '+')
  {
    PrintedPlain(c, k);
    PlainFacts(Printed(c, k));
    SplitPrinted(c, k);
    var parts := Split(Printed(c, k), '+');
    SplitPlain(Printed(c, k));
    forall i | 0 <= i < |parts| ensures TokenOf(parts[i]) == parts[i] {
      PlainFacts(parts[i]);
    }
    assert Tokens(Printed(c, k)) == parts;
  }

  lemma {:induction false} SplitPlain(s: string)
    requires Plain(s)
    ensures forall i :: 0 <= i < |Split(s, '+')| ==> Plain(Split(s, '+')[i])
  {
    if s == [] {
    } else {
      SplitPlain(s[1..]);
    }
  }

  lemma CountsOfPrinted(c: Chord, word: string, k: Kind)
    requires KindOf(word) == Key
    ensures Count(ModTokens(c) + [word], k) == if k == Key || (k.Mod? && HeldBy(c, k.m)) then 1 else 0
  {
    CountConcat(ModTokens(c), [word], k);
    CountOne(word, k);
    CountModTokens(c, k);
  }

  lemma PrintedTokensParse(c: Chord, word: string)
    requires ValidChord(c) && KindOf(word) == Key && KeyOf(word) == Some(c.key)
    ensures ChordOfTokens(ModTokens(c) + [word]) == Some(c)
  {
    var tokens := ModTokens(c) + [word];
    CountsOfPrinted(c, word, Blank);
    CountsOfPrinted(c, word, Key);
    CountsOfPrinted(c, word, Mod(Ctrl));
    CountsOfPrinted(c, word, Mod(Alt));
    CountsOfPrinted(c, word, Mod(Shift));
    CountsOfPrinted(c, word, Mod(Super));
    TheKeyIs(tokens, word);
  }

  lemma PrintedNotEmpty(c: Chord, k: string)
    requires k != []
    ensures Printed(c, k) != []
  {
  }

  /** A chord printed with any plain spelling of its key parses back. */
  lemma ParseOfPrinted(c: Chord, word: string)
    requires ValidChord(c) && Plain(word) && word != [] && |word| <= 20 && Lacks(word, '+')
    requires KindOf(word) == Key && KeyOf(word) == Some(c.key)
    ensures ChordOf(Printed(c, word)) == Some(c)
  {
    TokensOfPrinted(c, word);
    SplitOfLacking(word, '+');
    PrintedTokensParse(c, word);
    PrintedNotEmpty(c, word);
  }

  lemma SingleCharKey(ch: char)
    requires IsAsciiGraphic(ch) && LowerChar(ch) == ch && ch != '+'
    ensures KindOf([ch]) == Key && KeyOf([ch]) == Some(Char(ch))
  {
    PlainFacts([ch]);
  }

  lemma FunctionKeyParses(n: nat)
    requires 1 <= n <= 35
    ensures var t := KeyText(F(n));
            Plain(t) && 0 < |t| <= 20 && Lacks(t, '+') && KindOf(t) == Key && KeyOf(t) == Some(F(n))
  {
    FunctionKeyText(n);
    DecimalShort(n);
    ParseOfDecimal(n, 255);
    ByteLenAtLeast(KeyText(F(n)));
  }

  lemma NamedTextShape(key: KeyName)
    requires !key.F? && !key.Char?
    ensures Plain(KeyText(key)) && 0 < |KeyText(key)| <= 20 && Lacks(KeyText(key), '+')
  {
  }

  lemma NamedTextIsKey(key: KeyName)
    requires !key.F? && !key.Char?
    ensures ModifierOf(KeyText(key)).None?
  {
  }

  lemma KeyTextParses(key: KeyName)
    requires ValidKey(key) && key != Char('+')
    ensures Plain(KeyText(key)) && 0 < |KeyText(key)| <= 20 && Lacks(KeyText(key), '+')
    ensures KindOf(KeyText(key)) == Key && KeyOf(KeyText(key)) == Some(key)
  {
    if key.Char? {
      SingleCharKey(key.c);
    } else if key.F? {
      FunctionKeyParses(key.n);
    } else {
      NamedKeyRoundTrip(key);
      NamedTextShape(key);
      NamedTextIsKey(key);
    }
  }

  /** Parsing undoes printing for every chord the parser returns, except that a
      '+' key prints as an empty segment, which the parser refuses. */
  lemma ParseOfCanonical(c: Chord)
    requires ValidChord(c)
    ensures ChordOf(Canonical(c)) == if c.key == Char('+') then None else Some(c)
  {
    if c.key == Char('+') {
      TokensOfPrinted(c, ['+']);
      SplitKeyText(c.key);
      CountConcat(ModTokens(c), [[], []], Blank);
      CountOne([], Blank);
      assert Count([[], []], Blank) > 0;
    } else {
      KeyTextParses(c.key);
      ParseOfPrinted(c, KeyText(c.key));
    }
  }

  lemma PlusWord()
    ensures Plain("plus") && Lacks("plus", '+') && KindOf("plus") == Key && KeyOf("plus") == Some(Char('+'))
  {
  }

  /** The chords some spelling parses to are exactly the valid ones; '+' is
      reached through its word spelling. */
  lemma ValidIsParseable(c: Chord) returns (raw: string)
    requires ValidChord(c)
    ensures ChordOf(raw) == Some(c)
  {
    if c.key == Char('+') {
      raw := Printed(c, "plus");
      PlusWord();
      ParseOfPrinted(c, "plus");
    } else {
      raw := Canonical(c);
      ParseOfCanonical(c);
    }
  }

  // ---------------------------------------------------------------- mod key and presses

  datatype ModKey = AltMod | SuperMod

  /** `ModKey::apply_to`: move the alt slot of a default chord to the mod. */
  function ApplyTo(m: ModKey, c: Chord): Chord {
    if !c.alt || m.AltMod? then c else c.(alt := false, superHeld := true)
  }

  /** Rebinding keeps a held modifier, so a character key stays off bare typing. */
  lemma RebindingStaysHeld(m: ModKey, c: Chord)
    ensures Held(ApplyTo(m, c)) <==> Held(c)
    ensures ValidChord(c) ==> ValidChord(ApplyTo(m, c))
  {
  }

  /** Two chords alike but for alt and Super, one with alt and the other with
      either: moving alt to Super makes them one. */
  predicate Collide(a: Chord, b: Chord) {
    && a != b && a.(alt := false, superHeld := true) == b.(alt := false, superHeld := true)
    && ((a.alt && b.alt) || (a.alt && b.superHeld) || (a.superHeld && b.alt))
  }

  /** Rebinding identifies exactly the colliding chords, and only under Super. */
  lemma RebindingCollides(m: ModKey, a: Chord, b: Chord)
    ensures ApplyTo(m, a) == ApplyTo(m, b) <==> a == b || (m.SuperMod? && Collide(a, b))
  {
  }

  /** Such chords exist, so rebinding alone is not injective. */
  lemma CollidingPair(key: KeyName)
    ensures var a, b := Chord(false, true, false, false, key), Chord(false, false, false, true, key);
            a != b && ApplyTo(SuperMod, a) == ApplyTo(SuperMod, b)
  {
  }

  /** A table of distinct chords stays distinct under Super exactly when no two
      of them collide; under alt it always does. */
  lemma RebindingKeepsDistinct(m: ModKey, chords: seq<Chord>)
    requires forall i, j :: 0 <= i < j < |chords| ==> chords[i] != chords[j]
    ensures (forall i, j :: 0 <= i < j < |chords| ==> ApplyTo(m, chords[i]) != ApplyTo(m, chords[j]))
       <==> m.AltMod? || forall i, j :: 0 <= i < j < |chords| ==> !Collide(chords[i], chords[j])
  {
    forall i, j | 0 <= i < j < |chords|
      ensures ApplyTo(m, chords[i]) != ApplyTo(m, chords[j]) <==> m.AltMod? || !Collide(chords[i], chords[j])
    {
      RebindingCollides(m, chords[i], chords[j]);
    }
  }

  /** So a table without Super stays distinct. */
  lemma RebindingInjective(m: ModKey, a: Chord, b: Chord)
    requires !a.superHeld && !b.superHeld && ApplyTo(m, a) == ApplyTo(m, b)
    ensures a == b
  {
    RebindingCollides(m, a, b);
  }

  /** A press: the key and the modifiers held. */
  datatype KeyRef = KeyRef(key: KeyName, ctrl: bool, alt: bool, shift: bool, superHeld: bool)

  /** The chord a press is exactly. */
  function Pressed(k: KeyRef): Chord { Chord(k.ctrl, k.alt, k.shift, k.superHeld, k.key) }

  /** `KeyRef::matches`. */
  predicate Matches(k: KeyRef, c: Chord) {
    k.key == c.key && k.ctrl == c.ctrl && k.alt == c.alt && k.shift == c.shift && k.superHeld == c.superHeld
  }

  lemma MatchesIsPressed(k: KeyRef, c: Chord)
    ensures Matches(k, c) <==> Pressed(k) == c
  {
  }

  /** The presses a shipped chord answers under a mod: its own key, ctrl and
      shift, with Super held in place of alt where the mod moves it. */
  predicate FiresOn(m: ModKey, c: Chord, p: KeyRef) {
    && p.key == c.key && p.ctrl == c.ctrl && p.shift == c.shift
    && if m.SuperMod? && c.alt then !p.alt && p.superHeld else p.alt == c.alt && p.superHeld == c.superHeld
  }

  /** Rebinding keeps the key, ctrl and shift; it is the identity under alt and
      on chords without alt, and otherwise clears alt and holds Super. */
  lemma RebindingMovesAlt(m: ModKey, c: Chord)
    ensures ApplyTo(m, c).key == c.key && ApplyTo(m, c).ctrl == c.ctrl && ApplyTo(m, c).shift == c.shift
    ensures m.AltMod? || !c.alt ==> ApplyTo(m, c) == c
    ensures m.SuperMod? && c.alt ==> !ApplyTo(m, c).alt && ApplyTo(m, c).superHeld
  {
  }

  lemma RebindingFires(m: ModKey, c: Chord, p: KeyRef)
    ensures Pressed(p) == ApplyTo(m, c) <==> FiresOn(m, c, p)
  {
  }
}
