/** Two-step Leader sequences (crates/bitty-config/src/keymap.rs): the prefix
    table, its matcher, and its independence from the single-chord table. */
module PrefixBindings {
  import opened Wrappers
  import opened Text
  import opened Ordering
  import opened Chords
  import opened ChordStrings
  import opened Keymaps
  import Actions

  datatype PrefixBinding = PrefixBinding(second: Chord, action: Actions.ChromeAction, context: string)

  function PrefixId(b: PrefixBinding): string { b.context + "::" + Canonical(b.second) }

  /** `parse_prefix_second`: the chord grammar, and bare characters besides. */
  function SecondOf(raw: string): Option<Chord> {
    var t := Trim(Rust, raw);
    if t == [] || ByteLen(t) > MAX_CHORD_LEN then None
    else if ChordOf(t).Some? then ChordOf(t)
    else if |t| == 1 then Some(Chord(false, false, false, false, Char(LowerChar(t[0]))))
    else None
  }

  datatype PrefixSlot =
    | Single                     // not prefix-shaped: resolved as a single chord
    | Refused                    // prefix-shaped, but a part does not parse
    | Sequence(b: PrefixBinding)

  /** `parse_prefix_entry`. */
  function PrefixSlotOf(e: KeymapEntry): PrefixSlot {
    if !IsPrefixShape(e.chord) then Single
    else
      var second := Words(e.chord)[1];
      if ContextOf(e.context).None? || SecondOf(second).None? || Actions.ParseAction(e.action).Err? then Refused
      else Sequence(PrefixBinding(SecondOf(second).value, Actions.ParseAction(e.action).value, GLOBAL_CONTEXT))
  }

  function PrefixSlots(entries: seq<KeymapEntry>): seq<PrefixSlot> {
    Map(PrefixSlotOf, entries)
  }

  /** The last sequence bound to a follow-up chord: later entries win. */
  function LastFor(slots: seq<PrefixSlot>, c: Chord): Option<PrefixBinding> {
    if slots == [] then None
    else
      var last := slots[|slots| - 1];
      if last.Sequence? && last.b.second == c then Some(last.b) else LastFor(slots[..|slots| - 1], c)
  }

  predicate PrefixIdLe(a: PrefixBinding, b: PrefixBinding) { StrLe(PrefixId(a), PrefixId(b)) }

  function RetainPrefix(table: seq<PrefixBinding>, id: string): seq<PrefixBinding> {
    if table == [] then []
    else if PrefixId(table[0]) != id then [table[0]] + RetainPrefix(table[1..], id)
    else RetainPrefix(table[1..], id)
  }

  ghost predicate HoldsLast(table: seq<PrefixBinding>, slots: seq<PrefixSlot>) {
    && (forall b :: b in table <==> LastFor(slots, b.second) == Some(b))
    && Distinct(table)
  }

  ghost predicate PrefixResolves(slots: seq<PrefixSlot>, table: seq<PrefixBinding>) {
    && HoldsLast(table, slots)
    && SortedBy(PrefixIdLe, table)
    && (forall i, j :: 0 <= i < j < |table| ==> PrefixId(table[i]) != PrefixId(table[j]))
  }

  datatype PrefixError =
    | PrefixContext(raw: string) | PrefixSecond(raw: string) | PrefixAction(action: Actions.ActionError)

  /** The first part of a prefix-shaped entry that does not parse. */
  predicate PrefixEntryFault(e: KeymapEntry, err: PrefixError) {
    && IsPrefixShape(e.chord)
    && match err
       case PrefixContext(raw) => raw == e.context && ContextOf(e.context).None?
       case PrefixSecond(raw) =>
         raw == Words(e.chord)[1] && ContextOf(e.context).Some? && SecondOf(raw).None?
       case PrefixAction(action) =>
         && ContextOf(e.context).Some? && SecondOf(Words(e.chord)[1]).Some?
         && Actions.ParseAction(e.action) == Err(action)
  }

  /** Entry `i` is the first refused one, and `err` is why. */
  predicate FirstPrefixFault(entries: seq<KeymapEntry>, i: nat, err: PrefixError) {
    i < |entries| && Refused !in PrefixSlots(entries)[..i] && PrefixEntryFault(entries[i], err)
  }

  /** `parse_prefix_entry`: nothing for a single chord, otherwise a binding or
      the first part that does not parse. */
  method ParsePrefixEntry(entry: KeymapEntry) returns (r: Option<Result<PrefixBinding, PrefixError>>)
    ensures r.None? <==> PrefixSlotOf(entry) == Single
    ensures r.Some? && r.value.Ok? ==>
              PrefixSlotOf(entry) == Sequence(r.value.value) && r.value.value.context == GLOBAL_CONTEXT
    ensures r.Some? && r.value.Err? ==> PrefixSlotOf(entry) == Refused && PrefixEntryFault(entry, r.value.error)
  {
    if !IsPrefixShape(entry.chord) {
      return None;
    }
    var second := Words(entry.chord)[1];
    var context := ContextOf(entry.context);
    if context == None {
      return Some(Err(PrefixContext(entry.context)));
    }
    var chord := SecondOf(second);
    if chord == None {
      return Some(Err(PrefixSecond(second)));
    }
    var action := Actions.ParseAction(entry.action);
    if action.Err? {
      return Some(Err(PrefixAction(action.error)));
    }
    return Some(Ok(PrefixBinding(chord.value, action.value, context.value)));
  }

  /** `resolve_prefix_bindings`. */
  method ResolvePrefixBindings(entries: seq<KeymapEntry>) returns (r: Result<seq<PrefixBinding>, PrefixError>)
    ensures r.Ok? <==> Refused !in PrefixSlots(entries)
    ensures r.Ok? ==> PrefixResolves(PrefixSlots(entries), r.value)
    ensures r.Err? ==> exists i: nat :: FirstPrefixFault(entries, i, r.error)
  {
    var table: seq<PrefixBinding> := [];
    ghost var slots := PrefixSlots(entries);
    for i := 0 to |entries|
      invariant Refused !in slots[..i] && GlobalOnly(slots[..i])
      invariant HoldsLast(table, slots[..i])
    {
      var entry := entries[i];
      assert slots[i] == PrefixSlotOf(entry);
      TakeNext(slots, i);
      var parsed := ParsePrefixEntry(entry);
      if parsed.None? {
        SkipSingle(slots[..i], table);
        continue;
      }
      if parsed.value.Err? {
        assert FirstPrefixFault(entries, i, parsed.value.error);
        return Err(parsed.value.error);
      }
      var binding := parsed.value.value;
      var id := PrefixId(binding);
      AddSequence(slots[..i], binding, table);
      table := RetainPrefix(table, id);
      table := table + [binding];
    }
    assert slots[..|slots|] == slots;
    SortedPrefixTable(slots, table);
    table := SortBy(PrefixIdLe, table);
    return Ok(table);
  }

  lemma PrefixFaultSpoils(entries: seq<KeymapEntry>, i: nat, e: PrefixError, j: nat)
    requires FirstPrefixFault(entries, i, e) && i < j <= |entries|
    ensures Refused in PrefixSlots(entries)[..j]
  {
    assert PrefixSlots(entries)[..j][i] == Refused;
  }

  /** A refused list of entries has one refusal. */
  lemma PrefixRefusalUnique(entries: seq<KeymapEntry>, i: nat, e: PrefixError, j: nat, f: PrefixError)
    requires FirstPrefixFault(entries, i, e) && FirstPrefixFault(entries, j, f)
    ensures i == j && e == f
  {
    if i < j {
      PrefixFaultSpoils(entries, i, e, j);
    } else if j < i {
      PrefixFaultSpoils(entries, j, f, i);
    }
  }

  predicate GlobalOnly(slots: seq<PrefixSlot>) {
    forall i :: 0 <= i < |slots| && slots[i].Sequence? ==> slots[i].b.context == GLOBAL_CONTEXT
  }

  lemma SamePrefixId(a: PrefixBinding, b: PrefixBinding)
    requires a.context == b.context
    ensures PrefixId(a) == PrefixId(b) <==> a.second == b.second
  {
    if PrefixId(a) == PrefixId(b) {
      var n := |a.context + "::"|;
      assert PrefixId(a)[n..] == Canonical(a.second) && PrefixId(b)[n..] == Canonical(b.second);
      CanonicalInjective(a.second, b.second);
    }
  }

  lemma {:induction false} RetainPrefixMembers(table: seq<PrefixBinding>, id: string)
    requires Distinct(table)
    ensures forall b :: b in RetainPrefix(table, id) <==> b in table && PrefixId(b) != id
    ensures Distinct(RetainPrefix(table, id))
  {
    if table == [] {
    } else {
      RetainPrefixMembers(table[1..], id);
      assert table == [table[0]] + table[1..];
      assert table[0] !in table[1..];
    }
  }

  lemma {:induction false} LastForMember(slots: seq<PrefixSlot>, c: Chord)
    requires LastFor(slots, c).Some?
    ensures LastFor(slots, c).value.second == c && Sequence(LastFor(slots, c).value) in slots
  {
    var last := slots[|slots| - 1];
    if !(last.Sequence? && last.b.second == c) {
      LastForMember(slots[..|slots| - 1], c);
    }
  }

  lemma LastForSnoc(prev: seq<PrefixSlot>, s: PrefixSlot, c: Chord)
    ensures LastFor(prev + [s], c) == if s.Sequence? && s.b.second == c then Some(s.b) else LastFor(prev, c)
  {
    assert (prev + [s])[..|prev|] == prev;
  }

  lemma SkipSingle(prev: seq<PrefixSlot>, table: seq<PrefixBinding>)
    requires HoldsLast(table, prev)
    ensures HoldsLast(table, prev + [Single])
  {
    forall b: PrefixBinding ensures LastFor(prev + [Single], b.second) == LastFor(prev, b.second) {
      LastForSnoc(prev, Single, b.second);
    }
  }

  lemma AddSequence(prev: seq<PrefixSlot>, binding: PrefixBinding, table: seq<PrefixBinding>)
    requires HoldsLast(table, prev) && GlobalOnly(prev) && binding.context == GLOBAL_CONTEXT
    ensures HoldsLast(RetainPrefix(table, PrefixId(binding)) + [binding], prev + [Sequence(binding)])
  {
    var more := prev + [Sequence(binding)];
    var kept := RetainPrefix(table, PrefixId(binding));
    RetainPrefixMembers(table, PrefixId(binding));
    forall b ensures b in kept + [binding] <==> LastFor(more, b.second) == Some(b) {
      LastForSnoc(prev, Sequence(binding), b.second);
      if b in table {
        LastForMember(prev, b.second);
        SamePrefixId(b, binding);
      }
    }
  }

  lemma PrefixOrder()
    ensures TotalPreorder(PrefixIdLe)
  {
    forall x, y ensures PrefixIdLe(x, y) || PrefixIdLe(y, x) {
      StrLeTotal(PrefixId(x), PrefixId(y));
    }
    forall x, y, z | PrefixIdLe(x, y) && PrefixIdLe(y, z) ensures PrefixIdLe(x, z) {
      StrLeTransitive(PrefixId(x), PrefixId(y), PrefixId(z));
    }
  }

  lemma SortedPrefixTable(slots: seq<PrefixSlot>, table: seq<PrefixBinding>)
    requires HoldsLast(table, slots) && GlobalOnly(slots)
    ensures PrefixResolves(slots, SortBy(PrefixIdLe, table))
  {
    var t := SortBy(PrefixIdLe, table);
    PrefixOrder();
    SortSorts(PrefixIdLe, table);
    SortMembers(PrefixIdLe, table);
    SortDistinct(PrefixIdLe, table);
    forall i, j | 0 <= i < j < |t| ensures PrefixId(t[i]) != PrefixId(t[j]) {
      assert t[i] in t && t[j] in t;
      LastForMember(slots, t[i].second);
      LastForMember(slots, t[j].second);
      SamePrefixId(t[i], t[j]);
    }
  }

  // ---------------------------------------------------------------- matching

  function FirstPrefix(bindings: seq<PrefixBinding>, key: KeyRef): Option<Actions.ChromeAction> {
    if bindings == [] then None
    else if Matches(key, bindings[0].second) then Some(bindings[0].action)
    else FirstPrefix(bindings[1..], key)
  }

  /** `match_prefix`. */
  method MatchPrefix(bindings: seq<PrefixBinding>, key: KeyRef) returns (r: Option<Actions.ChromeAction>)
    ensures r == FirstPrefix(bindings, key)
    ensures r.None? <==> forall b :: b in bindings ==> b.second != Pressed(key)
  {
    for i := 0 to |bindings|
      invariant FirstPrefix(bindings, key) == FirstPrefix(bindings[i..], key)
      invariant forall j :: 0 <= j < i ==> bindings[j].second != Pressed(key)
    {
      if Matches(key, bindings[i].second) {
        assert bindings[i] in bindings;
        return Some(bindings[i].action);
      }
    }
    return None;
  }

  lemma {:induction false} FirstPrefixFinds(bindings: seq<PrefixBinding>, key: KeyRef)
    ensures FirstPrefix(bindings, key).None? ==> forall b :: b in bindings ==> b.second != Pressed(key)
    ensures FirstPrefix(bindings, key).Some? ==>
              exists b :: b in bindings && b.second == Pressed(key) && b.action == FirstPrefix(bindings, key).value
  {
    if bindings == [] {
    } else {
      FirstPrefixFinds(bindings[1..], key);
      assert bindings == [bindings[0]] + bindings[1..];
      assert bindings[0] in bindings;
    }
  }

  /** A press inside the Leader window runs the last entry bound to it. */
  lemma PrefixLastWins(slots: seq<PrefixSlot>, table: seq<PrefixBinding>, key: KeyRef)
    requires PrefixResolves(slots, table)
    ensures FirstPrefix(table, key)
         == match LastFor(slots, Pressed(key)) case Some(b) => Some(b.action) case None => None
  {
    FirstPrefixFinds(table, key);
    match LastFor(slots, Pressed(key))
    case Some(b) =>
      LastForMember(slots, Pressed(key));
      assert b in table;
    case None =>
  }

  // ---------------------------------------------------------------- the two shapes never overlap

  lemma {:induction false} FirstWord(s: string) returns (pre: string, post: string)
    requires Words(s) != []
    ensures s == pre + Words(s)[0] + post && AllSpace(Rust, pre)
    ensures Words(s)[0] != [] && NoSpace(Rust, Words(s)[0])
    ensures post == [] || IsSpace(Rust, post[0])
  {
    if IsSpace(Rust, s[0]) {
      var p;
      p, post := FirstWord(s[1..]);
      pre := [s[0]] + p;
      assert s == [s[0]] + s[1..];
    } else {
      var i := FirstSpace(Rust, s);
      pre, post := [], s[i..];
      assert s == s[..i] + s[i..];
    }
  }

  /** A token that begins with the Leader keyword names no key and no modifier. */
  lemma LeaderNamesNothing(t: string)
    requires |t| >= 6 && t[0] == 'l' && t[1] == 'e' && t[2] == 'a'
    ensures KindOf(t) == Key && KeyOf(t) == None
  {
    LeaderNamesNoKey(t);
    LeaderNamesNoModifier(t);
  }

  lemma LeaderNamesNoKey(t: string)
    requires |t| >= 6 && t[0] == 'l' && t[1] == 'e' && t[2] == 'a'
    ensures NamedKey(t) == None
  {
  }

  lemma LeaderNamesNoModifier(t: string)
    requires |t| >= 6 && t[0] == 'l'
    ensures ModifierOf(t) == None && !IsModifierName(t)
  {
  }

  lemma {:induction false} TrimEndKeepsWord(w: string, q: string)
    requires w != [] && !IsSpace(Rust, w[|w| - 1])
    ensures w <= TrimEnd(Rust, w + q)
  {
    if q == [] {
      assert w + q == w;
    } else if IsSpace(Rust, q[|q| - 1]) {
      assert (w + q)[..|w + q| - 1] == w + q[..|q| - 1];
      TrimEndKeepsWord(w, q[..|q| - 1]);
    }
  }

  /** Trimming keeps a word that stands in front. */
  lemma TrimKeepsWord(w: string, q: string)
    requires w != [] && NoSpace(Rust, w)
    ensures w <= Trim(Rust, w + q)
  {
    assert TrimStart(Rust, w + q) == w + q;
    TrimEndKeepsWord(w, q);
  }

  lemma LeaderLetters(w: string)
    requires Lower(w) == PREFIX_KEYWORD
    ensures |w| == 6 && Lower(w)[0] == 'l' && Lower(w)[1] == 'e' && Lower(w)[2] == 'a'
    ensures Lacks(w, '+')
  {
    forall i | 0 <= i < |w| ensures w[i] != '+' {
      LowerCharFixes(w[i]);
      assert Lower(w)[i] != '+';
    }
  }

  /** A word reading "leader", glued to more text, is no token of a chord. */
  lemma LeaderTokenNamesNothing(w: string, q: string)
    requires Lower(w) == PREFIX_KEYWORD && NoSpace(Rust, w) && w != []
    ensures KindOf(TokenOf(w + q)) == Key && KeyOf(TokenOf(w + q)) == None
  {
    LeaderLetters(w);
    TrimKeepsWord(w, q);
    var m := Trim(Rust, w + q);
    assert m[..6] == w;
    assert Lower(m)[0] == Lower(w)[0] && Lower(m)[1] == Lower(w)[1] && Lower(m)[2] == Lower(w)[2];
    LeaderNamesNothing(Lower(m));
  }

  lemma UnknownFirstToken(w: string, post: string)
    requires w != [] && Lacks(w, '+')
    requires KindOf(TokenOf(w + Split(post, '+')[0])) == Key && KeyOf(TokenOf(w + Split(post, '+')[0])) == None
    ensures ChordOfTokens(Tokens(w + post)) == None
  {
    SplitPadStart(w, post, '+');
    var token := TokenOf(w + Split(post, '+')[0]);
    assert Tokens(w + post)[0] == token;
    UnknownKeyRefuses(Tokens(w + post), token);
  }

  lemma PaddedTokensRefuse(pre: string, body: string)
    requires AllSpace(Rust, pre) && body != [] && !IsSpace(Rust, body[0]) && ChordOfTokens(Tokens(body)) == None
    ensures ChordOf(pre + body) == None
  {
    TokensOfPadded(pre, body, []);
    assert pre + body + [] == pre + body;
    if ByteLen(Trim(Rust, pre + body)) <= MAX_CHORD_LEN {
      ChordOfRawTokens(pre + body);
    }
  }

  /** A prefix-shaped string starts, after blanks, with such a word. */
  lemma ShapeStartsWithLeader(raw: string) returns (pre: string, w: string, post: string)
    requires IsPrefixShape(raw)
    ensures raw == pre + (w + post) && AllSpace(Rust, pre)
    ensures w != [] && NoSpace(Rust, w) && Lower(w) == PREFIX_KEYWORD
  {
    w := Words(raw)[0];
    pre, post := FirstWord(raw);
    assert pre + (w + post) == raw;
  }

  lemma LeaderFirstRefuses(pre: string, w: string, post: string)
    requires AllSpace(Rust, pre) && w != [] && NoSpace(Rust, w) && Lower(w) == PREFIX_KEYWORD
    ensures ChordOf(pre + (w + post)) == None
  {
    LeaderLetters(w);
    LeaderTokenNamesNothing(w, Split(post, '+')[0]);
    UnknownFirstToken(w, post);
    PaddedTokensRefuse(pre, w + post);
  }

  /** No string is both prefix-shaped and a single chord, so an entry has one
      reading. */
  lemma PrefixShapeIsNoChord(raw: string)
    requires IsPrefixShape(raw)
    ensures ChordOf(raw) == None
  {
    var pre, w, post := ShapeStartsWithLeader(raw);
    LeaderFirstRefuses(pre, w, post);
  }

  // ---------------------------------------------------------------- validation and independence

  /** `validate_entry`. */
  predicate Validates(e: KeymapEntry) {
    && ContextOf(e.context).Some?
    && (if IsPrefixShape(e.chord) then PrefixSlotOf(e).Sequence? else ChordOf(e.chord).Some?)
    && Actions.ParseAction(e.action).Ok?
  }

  /** Entries that validate one by one never stop the prefix table, and can only
      stop the single-chord table by repeating a chord. */
  lemma ValidatedEntriesResolve(entries: seq<KeymapEntry>)
    requires forall i :: 0 <= i < |entries| ==> Validates(entries[i])
    ensures Refused !in PrefixSlots(entries) && Broken !in Slots(entries)
  {
    forall i | 0 <= i < |entries|
      ensures PrefixSlots(entries)[i] != Refused && Slots(entries)[i] != Broken
    {
      assert Validates(entries[i]);
    }
  }

  function DropPrefixes(entries: seq<KeymapEntry>): seq<KeymapEntry> {
    if entries == [] then []
    else if IsPrefixShape(entries[0].chord) then DropPrefixes(entries[1..])
    else [entries[0]] + DropPrefixes(entries[1..])
  }

  ghost predicate Fresh(x: Slot, s: seq<Slot>) {
    x.Bound? ==> forall k :: Bound(k) in s ==> k.chord != x.k.chord
  }

  lemma ResolvableCons(x: Slot, s: seq<Slot>)
    ensures Resolvable([x] + s) <==> x != Broken && Fresh(x, s) && Resolvable(s)
  {
    var t := [x] + s;
    assert t[1..] == s;
    if Resolvable(t) {
      forall k | x.Bound? && Bound(k) in s ensures k.chord != x.k.chord {
        var j :| 0 <= j < |s| && s[j] == Bound(k);
        assert t[0] == x && t[j + 1] == Bound(k);
      }
      assert Broken !in s by {
        assert forall y :: y in s ==> y in t;
      }
      forall i, j | 0 <= i < j < |s| && s[i].Bound? && s[j].Bound? ensures s[i].k.chord != s[j].k.chord {
        assert t[i + 1] == s[i] && t[j + 1] == s[j];
      }
    }
    if x != Broken && Fresh(x, s) && Resolvable(s) {
      forall i, j | 0 <= i < j < |t| && t[i].Bound? && t[j].Bound? ensures t[i].k.chord != t[j].k.chord {
        assert t[j] == s[j - 1];
        assert Bound(t[j].k) in s;
        if i > 0 {
          assert t[i] == s[i - 1];
        }
      }
    }
  }

  lemma {:induction false} DropPrefixesKeepsBindings(entries: seq<KeymapEntry>)
    ensures forall k :: Bound(k) in Slots(entries) <==> Bound(k) in Slots(DropPrefixes(entries))
    ensures Resolvable(Slots(entries)) <==> Resolvable(Slots(DropPrefixes(entries)))
  {
    if entries == [] {
    } else {
      var e, rest := entries[0], entries[1..];
      DropPrefixesKeepsBindings(rest);
      assert entries == [e] + rest;
      MapCons(SlotOf, e, rest);
      ResolvableCons(SlotOf(e), Slots(rest));
      if !IsPrefixShape(e.chord) {
        MapCons(SlotOf, e, DropPrefixes(rest));
        ResolvableCons(SlotOf(e), Slots(DropPrefixes(rest)));
        assert Fresh(SlotOf(e), Slots(rest)) <==> Fresh(SlotOf(e), Slots(DropPrefixes(rest)));
      }
    }
  }

  /** Prefix entries never change the single-chord table, nor whether it
      resolves. */
  lemma PrefixEntriesInvisible(cfg: Config, shipped: seq<Default>, table: seq<ResolvedKeymap>)
    ensures var bare := Config(cfg.modKey, DropPrefixes(cfg.keymaps));
            && (Resolvable(Slots(cfg.keymaps)) <==> Resolvable(Slots(bare.keymaps)))
            && (Resolves(cfg, shipped, table) <==> Resolves(bare, shipped, table))
  {
    var d := DefaultsWithMod(cfg.modKey, shipped);
    var s, t := Slots(cfg.keymaps), Slots(DropPrefixes(cfg.keymaps));
    DropPrefixesKeepsBindings(cfg.keymaps);
    forall k ensures Belongs(s, d, k) <==> Belongs(t, d, k) {
      assert Taken(s, k.chord) <==> Taken(t, k.chord);
    }
  }

  // ---------------------------------------------------------------- what a sequence says

  lemma {:induction false} WordsSkip(pre: string, s: string)
    requires AllSpace(Rust, pre)
    ensures Words(pre + s) == Words(s)
    decreases |pre|
  {
    if pre == [] {
      assert pre + s == s;
    } else {
      assert (pre + s)[1..] == pre[1..] + s;
      WordsSkip(pre[1..], s);
    }
  }

  lemma WordsTake(w: string, s: string)
    requires w != [] && NoSpace(Rust, w) && (s == [] || IsSpace(Rust, s[0]))
    ensures Words(w + s) == [w] + Words(s)
  {
    FirstSpaceIs(Rust, w + s, |w|);
    assert (w + s)[..|w|] == w && (w + s)[|w|..] == s;
  }

  lemma {:induction false} NoWordsIsBlank(s: string)
    ensures Words(s) == [] <==> AllSpace(Rust, s)
    decreases |s|
  {
    if s == [] {
    } else if IsSpace(Rust, s[0]) {
      NoWordsIsBlank(s[1..]);
      assert forall i :: 0 < i < |s| ==> s[i] == s[1..][i - 1];
    }
  }

  /** Two words among blanks. */
  ghost predicate TwoWords(raw: string, first: string, second: string) {
    && first != [] && NoSpace(Rust, first) && second != [] && NoSpace(Rust, second)
    && exists pre, gap, post :: BlanksAround(pre, gap, post) && raw == pre + (first + (gap + (second + post)))
  }

  predicate BlanksAround(pre: string, gap: string, post: string) {
    AllSpace(Rust, pre) && AllSpace(Rust, gap) && gap != [] && AllSpace(Rust, post)
  }

  lemma TwoWordsRead(pre: string, first: string, gap: string, second: string, post: string)
    requires first != [] && NoSpace(Rust, first) && second != [] && NoSpace(Rust, second)
    requires BlanksAround(pre, gap, post)
    ensures Words(pre + (first + (gap + (second + post)))) == [first, second]
  {
    NoWordsIsBlank(post);
    WordsTake(second, post);
    WordsSkip(gap, second + post);
    assert (gap + (second + post))[0] == gap[0];
    WordsTake(first, gap + (second + post));
    WordsSkip(pre, first + (gap + (second + post)));
  }

  lemma ReadTwoWords(raw: string, first: string, second: string)
    requires Words(raw) == [first, second]
    ensures TwoWords(raw, first, second)
  {
    var pre, rest := FirstWord(raw);
    assert raw == pre + (first + rest);
    WordsSkip(pre, first + rest);
    WordsTake(first, rest);
    assert Words(rest) == ([first] + Words(rest))[1..] == [second];
    var gap, post := FirstWord(rest);
    WordAfterGap(rest, gap, second, post);
    assert raw == pre + (first + (gap + (second + post)));
  }

  lemma FirstOfGap(gap: string, word: string, post: string)
    requires word != []
    ensures (gap + (word + post))[0] == if gap == [] then word[0] else gap[0]
  {
  }

  lemma WordAfterGap(rest: string, gap: string, word: string, post: string)
    requires Words(rest) == [word] && rest == gap + word + post && AllSpace(Rust, gap)
    requires word != [] && NoSpace(Rust, word) && IsSpace(Rust, rest[0]) && (post == [] || IsSpace(Rust, post[0]))
    ensures BlanksAround([], gap, post) && rest == gap + (word + post)
  {
    assert rest == gap + (word + post);
    WordsSkip(gap, word + post);
    WordsTake(word, post);
    NoWordsIsBlank(post);
    FirstOfGap(gap, word, post);
  }

  /** Splitting at whitespace finds exactly the two words. */
  lemma TwoWordsExactly(raw: string, first: string, second: string)
    ensures TwoWords(raw, first, second) <==> Words(raw) == [first, second]
  {
    if TwoWords(raw, first, second) {
      var pre, gap, post :| BlanksAround(pre, gap, post) && raw == pre + (first + (gap + (second + post)));
      TwoWordsRead(pre, first, gap, second, post);
    } else if Words(raw) == [first, second] {
      ReadTwoWords(raw, first, second);
    }
  }

  lemma LeaderWord(w: string)
    ensures Lower(w) == PREFIX_KEYWORD <==> SameLetters(w, PREFIX_KEYWORD)
  {
    LowerOfLower(PREFIX_KEYWORD);
    LowerIsSameLetters(w, PREFIX_KEYWORD);
  }

  /** A lone character is no chord. */
  lemma LoneCharacterIsNoChord(ch: char)
    ensures ChordOf([ch]).None?
  {
    if ChordOf([ch]).Some? {
      var c := ChordOf([ch]).value;
      StringSpellsChord([ch], c);
      LoneTrim(ch);
      LoneTokens(ch, c);
    }
  }

  lemma LoneTrim(ch: char)
    ensures Trim(Rust, [ch]) == if IsSpace(Rust, ch) then [] else [ch]
  {
    if IsSpace(Rust, ch) {
      TrimUnique(Rust, [ch], [], []);
      assert [ch] + [] + [] == [ch];
    } else {
      TrimOfTrimmed(Rust, [ch]);
    }
  }

  lemma LoneTokens(ch: char, c: Chord)
    requires !IsSpace(Rust, ch)
    ensures !SpellsChord(Tokens([ch]), c)
  {
    if ch == '+' {
      assert Split([], '+') == [[]] && Split(['+'], '+') == [[], []];
      BlankSegment(Tokens([ch]), c);
    } else {
      SplitOfLacking([ch], '+');
      TrimOfTrimmed(Rust, [ch]);
      ShortSegment(Lower([ch]), c);
      assert Tokens([ch]) == [Lower([ch])];
    }
  }

  lemma BlankSegment(tokens: seq<string>, c: Chord)
    requires tokens != [] && tokens[0] == []
    ensures !SpellsChord(tokens, c)
  {
    if SpellsChord(tokens, c) {
      SegmentsSpellChord(tokens, c);
      CountMember(tokens, tokens[0]);
    }
  }

  lemma ShortSegment(t: string, c: Chord)
    requires |t| == 1
    ensures !SpellsChord([t], c)
  {
    forall m ensures t !in ModSpellings(m) {
      ShortIsNoModifier(t, m);
    }
    if SpellsChord([t], c) {
      assert SpellsKey(t, c.key);
      ShortKey(t, c.key);
      UnheldChord(t, c);
    }
  }

  lemma ShortIsNoModifier(t: string, m: Modifier)
    requires |t| == 1
    ensures t !in ModSpellings(m)
  {
    if t in ModSpellings(m) {
      WordsAreLong(ModWord(m), t);
    }
  }

  lemma ShortKey(t: string, key: KeyName)
    requires |t| == 1 && SpellsKey(t, key)
    ensures key.Char?
  {
    if t in KeySpellings(key) {
      WordsAreLong(KeyWord(key), t);
    } else if key.F? {
      NumberWordNotEmpty(t[1..], key.n);
    }
  }

  lemma UnheldChord(t: string, c: Chord)
    requires SpellsChord([t], c) && forall m :: t !in ModSpellings(m)
    ensures !c.ctrl && !c.alt && !c.shift && !c.superHeld
  {
    forall m ensures !HeldBy(c, m) {
      assert !OnceIn([t], ModSpellings(m));
    }
    assert HeldBy(c, Ctrl) == c.ctrl && HeldBy(c, Alt) == c.alt;
    assert HeldBy(c, Shift) == c.shift && HeldBy(c, Super) == c.superHeld;
  }

  /** A follow-up word denotes `c`: as a chord, or as one bare character, which
      stands for its unmodified key. */
  predicate FollowsUp(word: string, c: Chord) {
    || ChordOf(word) == Some(c)
    || (|word| == 1 && c == Chord(false, false, false, false, Char(LowerChar(word[0]))))
  }

  lemma FollowUpExactly(word: string, c: Chord)
    requires word != [] && NoSpace(Rust, word)
    ensures SecondOf(word) == Some(c) <==> FollowsUp(word, c)
  {
    TrimOfTrimmed(Rust, word);
    if |word| == 1 {
      LoneCharacterIsNoChord(word[0]);
      assert word == [word[0]] && word[1..] == [];
      assert ByteLen(word) == Utf8Len(word[0]) + ByteLen([]);
    }
  }

  /** An entry binds a sequence exactly when its chord is the word `leader`, in
      any case, and a follow-up word, among blanks, and its context and action
      parse. */
  lemma SequenceExactly(e: KeymapEntry, b: PrefixBinding, first: string, second: string)
    requires TwoWords(e.chord, first, second)
    ensures PrefixSlotOf(e) == Sequence(b) <==>
              && SameLetters(first, PREFIX_KEYWORD) && FollowsUp(second, b.second)
              && IsGlobal(e.context) && b.context == GLOBAL_CONTEXT
              && Actions.ParseAction(e.action) == Ok(b.action)
  {
    TwoWordsExactly(e.chord, first, second);
    LeaderWord(first);
    ContextExactly(e.context);
    FollowUpExactly(second, b.second);
  }

  /** Any other chord text is no sequence. */
  lemma OtherTextIsSingle(e: KeymapEntry)
    requires forall first, second :: TwoWords(e.chord, first, second) ==> !SameLetters(first, PREFIX_KEYWORD)
    ensures PrefixSlotOf(e) == Single
  {
    var words := Words(e.chord);
    if |words| == 2 {
      TwoWordsExactly(e.chord, words[0], words[1]);
      LeaderWord(words[0]);
    }
  }

  /** `leader` and a bare character answer exactly the unmodified press of it. */
  lemma BareFollowUp(c: char, key: KeyRef)
    requires !IsSpace(Rust, c)
    ensures SecondOf([c]) == Some(Pressed(key)) <==>
              key.key == Char(LowerChar(c)) && !key.ctrl && !key.alt && !key.shift && !key.superHeld
  {
    var word := [c];
    FollowUpExactly(word, Pressed(key));
    LoneCharacterIsNoChord(c);
    assert FollowsUp(word, Pressed(key)) <==> Pressed(key) == Chord(false, false, false, false, Char(LowerChar(c)));
  }
}
