/** The resolved keymap (crates/bitty-config/src/keymap.rs): shipped defaults
    rebound to the mod key, overlaid by user entries, sorted, and matched. */
module Keymaps {
  import opened Wrappers
  import opened Text
  import opened Ordering
  import opened Chords
  import Actions

  datatype KeymapEntry = KeymapEntry(chord: string, action: string, context: string)

  /** The part of the effective configuration the resolver reads. */
  datatype Config = Config(modKey: ModKey, keymaps: seq<KeymapEntry>)

  datatype Default = Default(chord: Chord, action: Actions.ChromeAction)

  datatype ResolvedKeymap = ResolvedKeymap(
    chord: Chord, action: Actions.ChromeAction, context: string, fromDefault: bool)

  const GLOBAL_CONTEXT: string := "global"
  const PREFIX_KEYWORD: string := "leader"

  /** `ResolvedKeymap::id`: the merge identity. */
  function Id(k: ResolvedKeymap): string { k.context + "::" + Canonical(k.chord) }

  /** `validate_context`. */
  function ContextOf(raw: string): Option<string> {
    if Lower(Trim(Rust, raw)) == GLOBAL_CONTEXT then Some(GLOBAL_CONTEXT) else None
  }

  /** The word `global`, in any case, among blanks. */
  ghost predicate IsGlobal(raw: string) {
    exists pre, word, post ::
      AllSpace(Rust, pre) && AllSpace(Rust, post) && SameLetters(word, GLOBAL_CONTEXT) && raw == pre + word + post
  }

  /** No other context is accepted. */
  lemma ContextExactly(raw: string)
    ensures ContextOf(raw).Some? <==> IsGlobal(raw)
    ensures ContextOf(raw).Some? ==> ContextOf(raw).value == "global"
  {
    if ContextOf(raw).Some? {
      var pre, post := TrimShape(Rust, raw);
      GlobalWord(Trim(Rust, raw));
    }
    if IsGlobal(raw) {
      var pre, word, post :| AllSpace(Rust, pre) && AllSpace(Rust, post) && SameLetters(word, GLOBAL_CONTEXT)
                             && raw == pre + word + post;
      GlobalWord(word);
      TrimUnique(Rust, pre, word, post);
    }
  }

  lemma GlobalWord(word: string)
    ensures Lower(word) == GLOBAL_CONTEXT <==> SameLetters(word, GLOBAL_CONTEXT)
    ensures SameLetters(word, GLOBAL_CONTEXT) ==> Trimmed(Rust, word)
  {
    LowerOfLower(GLOBAL_CONTEXT);
    LowerIsSameLetters(word, GLOBAL_CONTEXT);
  }

  /** `is_prefix_entry_shape`. */
  predicate IsPrefixShape(raw: string) {
    var words := Words(raw);
    |words| == 2 && Lower(words[0]) == PREFIX_KEYWORD
  }

  /** What one user entry contributes to the single-chord table. */
  datatype Slot =
    | Prefix                      // a prefix sequence: resolved elsewhere
    | Broken                      // context, chord or action does not parse
    | Bound(k: ResolvedKeymap)

  function SlotOf(e: KeymapEntry): Slot {
    if IsPrefixShape(e.chord) then Prefix
    else if ContextOf(e.context).None? || ChordOf(e.chord).None? || Actions.ParseAction(e.action).Err? then Broken
    else Bound(ResolvedKeymap(ChordOf(e.chord).value, Actions.ParseAction(e.action).value, GLOBAL_CONTEXT, false))
  }

  function Slots(entries: seq<KeymapEntry>): seq<Slot> {
    Map(SlotOf, entries)
  }

  /** What the defaults promise: parsed, Super-free, pairwise distinct chords. */
  predicate ShippedOk(shipped: seq<Default>) {
    && (forall i :: 0 <= i < |shipped| ==>
          ValidChord(shipped[i].chord) && !shipped[i].chord.superHeld && Actions.ValidAction(shipped[i].action))
    && (forall i, j :: 0 <= i < j < |shipped| ==> shipped[i].chord != shipped[j].chord)
  }

  function Rebound(m: ModKey, d: Default): ResolvedKeymap {
    ResolvedKeymap(ApplyTo(m, d.chord), d.action, GLOBAL_CONTEXT, true)
  }

  /** `default_keymaps_with_mod`. */
  function DefaultsWithMod(m: ModKey, shipped: seq<Default>): seq<ResolvedKeymap> {
    seq(|shipped|, i requires 0 <= i < |shipped| => Rebound(m, shipped[i]))
  }

  predicate IdLe(a: ResolvedKeymap, b: ResolvedKeymap) { StrLe(Id(a), Id(b)) }

  function Retain(table: seq<ResolvedKeymap>, id: string): seq<ResolvedKeymap> {
    if table == [] then []
    else if Id(table[0]) != id then [table[0]] + Retain(table[1..], id)
    else Retain(table[1..], id)
  }

  // ---------------------------------------------------------------- what resolution means

  /** Some user entry binds `c`. */
  ghost predicate Taken(slots: seq<Slot>, c: Chord) {
    exists k :: Bound(k) in slots && k.chord == c
  }

  /** User entries as given, plus the rebound defaults no user entry replaces. */
  ghost predicate Belongs(slots: seq<Slot>, defaults: seq<ResolvedKeymap>, k: ResolvedKeymap) {
    Bound(k) in slots || (k in defaults && !Taken(slots, k.chord))
  }

  ghost predicate HoldsExactly(table: seq<ResolvedKeymap>, slots: seq<Slot>, defaults: seq<ResolvedKeymap>) {
    && (forall k :: k in table <==> Belongs(slots, defaults, k))
    && Distinct(table)
  }

  /** Every non-prefix entry parses and no two bind one normalized chord. */
  ghost predicate Resolvable(slots: seq<Slot>) {
    && Broken !in slots
    && (forall i, j :: 0 <= i < j < |slots| && slots[i].Bound? && slots[j].Bound? ==>
          slots[i].k.chord != slots[j].k.chord)
  }

  /** `table` is the resolved table of a configuration. */
  ghost predicate Resolves(cfg: Config, shipped: seq<Default>, table: seq<ResolvedKeymap>) {
    && HoldsExactly(table, Slots(cfg.keymaps), DefaultsWithMod(cfg.modKey, shipped))
    && SortedBy(IdLe, table)
    && (forall i, j :: 0 <= i < j < |table| ==> Id(table[i]) != Id(table[j]))
  }

  // ---------------------------------------------------------------- the resolver

  datatype KeymapError =
    | BadContext(raw: string) | BadChord(chord: ChordError) | BadAction(action: Actions.ActionError)
    | DuplicateId(id: string)

  /** The first part of a single-chord entry that does not parse. */
  ghost predicate EntryFault(e: KeymapEntry, err: KeymapError) {
    && !IsPrefixShape(e.chord)
    && match err
       case BadContext(raw) => raw == e.context && ContextOf(e.context).None?
       case BadChord(chord) => ContextOf(e.context).Some? && ChordOf(e.chord).None? && Blames(e.chord, chord)
       case BadAction(action) =>
         ContextOf(e.context).Some? && ChordOf(e.chord).Some? && Actions.ParseAction(e.action) == Err(action)
       case DuplicateId(_) => false
  }

  /** Entry `i` is the first one that cannot join those before it, and `err` is
      why. */
  ghost predicate FirstFault(entries: seq<KeymapEntry>, i: nat, err: KeymapError) {
    && i < |entries| && Resolvable(Slots(entries)[..i])
    && (EntryFault(entries[i], err)
        || (SlotOf(entries[i]).Bound? && err == DuplicateId(Id(SlotOf(entries[i]).k))
            && Taken(Slots(entries)[..i], SlotOf(entries[i]).k.chord)))
  }

  /** The three parses `resolve_keymaps` runs on one single-chord entry. */
  method ParseEntry(entry: KeymapEntry) returns (r: Result<ResolvedKeymap, KeymapError>)
    requires !IsPrefixShape(entry.chord)
    ensures r.Ok? ==> SlotOf(entry) == Bound(r.value)
    ensures r.Ok? ==> r.value.context == GLOBAL_CONTEXT && !r.value.fromDefault
    ensures r.Err? ==> SlotOf(entry) == Broken && EntryFault(entry, r.error)
  {
    var context := ContextOf(entry.context);
    if context == None {
      return Err(BadContext(entry.context));
    }
    var chord := ParseChord(entry.chord);
    if chord.Err? {
      return Err(BadChord(chord.error));
    }
    var action := Actions.ParseAction(entry.action);
    if action.Err? {
      return Err(BadAction(action.error));
    }
    return Ok(ResolvedKeymap(chord.value, action.value, context.value, false));
  }

  /** `resolve_keymaps`. */
  method ResolveKeymaps(cfg: Config, shipped: seq<Default>) returns (r: Result<seq<ResolvedKeymap>, KeymapError>)
    requires ShippedOk(shipped)
    ensures r.Ok? <==> Resolvable(Slots(cfg.keymaps))
    ensures r.Ok? ==> Resolves(cfg, shipped, r.value)
    ensures r.Err? ==> exists i: nat :: FirstFault(cfg.keymaps, i, r.error)
  {
    var entries := cfg.keymaps;
    ghost var slots := Slots(entries);
    ghost var defaults := DefaultsWithMod(cfg.modKey, shipped);
    var table := DefaultsWithMod(cfg.modKey, shipped);
    var seenUser: set<string> := {};
    DefaultsFit(cfg.modKey, shipped);
    for i := 0 to |entries|
      invariant Progress(slots[..i], defaults, table, seenUser)
    {
      var entry := entries[i];
      assert slots[i] == SlotOf(entry);
      TakeNext(slots, i);
      if IsPrefixShape(entry.chord) {
        SkipPrefix(slots[..i], defaults, table, seenUser);
        continue;
      }
      var parsed := ParseEntry(entry);
      if parsed.Err? {
        assert FirstFault(entries, i, parsed.error);
        return Err(parsed.error);
      }
      var resolved := parsed.value;
      var id := Id(resolved);
      if id in seenUser {
        DuplicateRefused(slots, i, seenUser);
        assert FirstFault(entries, i, DuplicateId(id));
        return Err(DuplicateId(id));
      }
      AddEntry(slots[..i], resolved, defaults, table, seenUser);
      seenUser := seenUser + {id};
      table := Retain(table, id);
      table := table + [resolved];
    }
    assert slots[..|slots|] == slots;
    SortedTable(cfg, shipped, table);
    table := SortBy(IdLe, table);
    return Ok(table);
  }

  /** The identities of the user entries read so far. */
  ghost predicate SeenAre(slots: seq<Slot>, seen: set<string>) {
    && (forall k :: Bound(k) in slots ==> Id(k) in seen && k.context == GLOBAL_CONTEXT && !k.fromDefault)
    && (forall id :: id in seen ==> exists k :: Bound(k) in slots && Id(k) == id)
  }

  ghost predicate Progress(slots: seq<Slot>, defaults: seq<ResolvedKeymap>, table: seq<ResolvedKeymap>,
                           seen: set<string>) {
    Resolvable(slots) && SeenAre(slots, seen) && HoldsExactly(table, slots, defaults)
  }

  lemma DefaultsFit(m: ModKey, shipped: seq<Default>)
    requires ShippedOk(shipped)
    ensures HoldsExactly(DefaultsWithMod(m, shipped), [], DefaultsWithMod(m, shipped))
  {
    var d := DefaultsWithMod(m, shipped);
    forall i, j | 0 <= i < j < |d| ensures d[i] != d[j] {
      if d[i].chord == d[j].chord {
        RebindingInjective(m, shipped[i].chord, shipped[j].chord);
      }
    }
  }

  /** In one table all contexts agree, so identities agree exactly when chords do. */
  lemma SameIdSameChord(a: ResolvedKeymap, b: ResolvedKeymap)
    requires a.context == b.context
    ensures Id(a) == Id(b) <==> a.chord == b.chord
  {
    if Id(a) == Id(b) {
      var n := |a.context + "::"|;
      assert Id(a)[n..] == Canonical(a.chord) && Id(b)[n..] == Canonical(b.chord);
      CanonicalInjective(a.chord, b.chord);
    }
  }

  lemma {:induction false} RetainMembers(table: seq<ResolvedKeymap>, id: string)
    requires Distinct(table)
    ensures forall k :: k in Retain(table, id) <==> k in table && Id(k) != id
    ensures Distinct(Retain(table, id))
  {
    if table == [] {
    } else {
      RetainMembers(table[1..], id);
      assert table == [table[0]] + table[1..];
      assert table[0] !in table[1..];
    }
  }

  lemma BelongsIsGlobal(cfg: Config, shipped: seq<Default>, k: ResolvedKeymap)
    requires Belongs(Slots(cfg.keymaps), DefaultsWithMod(cfg.modKey, shipped), k)
    ensures k.context == GLOBAL_CONTEXT
    ensures k.fromDefault <==> Bound(k) !in Slots(cfg.keymaps)
  {
  }

  lemma SkipPrefix(prev: seq<Slot>, defaults: seq<ResolvedKeymap>, table: seq<ResolvedKeymap>, seen: set<string>)
    requires Progress(prev, defaults, table, seen)
    ensures Progress(prev + [Prefix], defaults, table, seen)
  {
    var more := prev + [Prefix];
    assert forall k :: Bound(k) in more <==> Bound(k) in prev;
    forall k ensures Belongs(more, defaults, k) <==> Belongs(prev, defaults, k) {
      assert Taken(more, k.chord) <==> Taken(prev, k.chord);
    }
  }

  lemma DuplicateRefused(slots: seq<Slot>, i: nat, seen: set<string>)
    requires i < |slots| && slots[i].Bound? && slots[i].k.context == GLOBAL_CONTEXT
    requires SeenAre(slots[..i], seen) && Id(slots[i].k) in seen
    ensures !Resolvable(slots) && Taken(slots[..i], slots[i].k.chord)
  {
    var k :| Bound(k) in slots[..i] && Id(k) == Id(slots[i].k);
    var j :| 0 <= j < i && slots[..i][j] == Bound(k);
    assert slots[j] == Bound(k);
    SameIdSameChord(k, slots[i].k);
  }

  lemma FaultBreaks(entries: seq<KeymapEntry>, i: nat, err: KeymapError, j: nat)
    requires FirstFault(entries, i, err) && i < j <= |entries|
    ensures !Resolvable(Slots(entries)[..j])
  {
    var slots := Slots(entries)[..j];
    assert slots[i] == SlotOf(entries[i]) && slots[..i] == Slots(entries)[..i];
    if slots[i].Bound? {
      var k :| Bound(k) in slots[..i] && k.chord == slots[i].k.chord;
      var n :| 0 <= n < i && slots[..i][n] == Bound(k);
      assert slots[n] == Bound(k);
    }
  }

  /** A refused configuration has one refusal. */
  lemma RefusalUnique(entries: seq<KeymapEntry>, i: nat, e: KeymapError, j: nat, f: KeymapError)
    requires FirstFault(entries, i, e) && FirstFault(entries, j, f)
    ensures i == j && e == f
  {
    if i < j {
      FaultBreaks(entries, i, e, j);
    } else if j < i {
      FaultBreaks(entries, j, f, i);
    } else if e.BadChord? && f.BadChord? {
      BlameUnique(entries[i].chord, e.chord, f.chord);
    }
  }

  /** Adding one fresh user entry: the default it shadows goes, it comes. */
  lemma AddEntry(prev: seq<Slot>, res: ResolvedKeymap, defaults: seq<ResolvedKeymap>,
                 table: seq<ResolvedKeymap>, seen: set<string>)
    requires Progress(prev, defaults, table, seen) && Id(res) !in seen
    requires res.context == GLOBAL_CONTEXT && !res.fromDefault
    requires forall k :: k in defaults ==> k.context == GLOBAL_CONTEXT
    ensures Progress(prev + [Bound(res)], defaults, Retain(table, Id(res)) + [res], seen + {Id(res)})
  {
    var more := prev + [Bound(res)];
    forall k | Bound(k) in prev ensures k.chord != res.chord {
      SameIdSameChord(k, res);
    }
    OverlayEntry(prev, res, defaults, table);
    assert forall k :: Bound(k) in more <==> Bound(k) in prev || k == res;
    assert Broken !in more;
    forall i, j | 0 <= i < j < |more| && more[i].Bound? && more[j].Bound?
      ensures more[i].k.chord != more[j].k.chord
    {
      assert prev[i] == Bound(more[i].k);
      assert Bound(more[i].k) in prev;
    }
  }

  lemma OverlayEntry(prev: seq<Slot>, res: ResolvedKeymap, defaults: seq<ResolvedKeymap>, table: seq<ResolvedKeymap>)
    requires HoldsExactly(table, prev, defaults) && res.context == GLOBAL_CONTEXT
    requires forall k :: Bound(k) in prev ==> k.chord != res.chord && k.context == GLOBAL_CONTEXT
    requires forall k :: k in defaults ==> k.context == GLOBAL_CONTEXT
    ensures HoldsExactly(Retain(table, Id(res)) + [res], prev + [Bound(res)], defaults)
  {
    var more := prev + [Bound(res)];
    RetainMembers(table, Id(res));
    assert forall k :: Bound(k) in more <==> Bound(k) in prev || k == res;
    forall k ensures k in Retain(table, Id(res)) + [res] <==> Belongs(more, defaults, k) {
      TakenMore(prev, res, k.chord);
      if k.context == GLOBAL_CONTEXT {
        SameIdSameChord(k, res);
      }
    }
    assert res !in Retain(table, Id(res));
  }

  lemma TakenMore(prev: seq<Slot>, res: ResolvedKeymap, c: Chord)
    ensures Taken(prev + [Bound(res)], c) <==> Taken(prev, c) || c == res.chord
  {
    var more := prev + [Bound(res)];
    assert forall k :: Bound(k) in more <==> Bound(k) in prev || k == res;
    if c == res.chord {
      assert Bound(res) in more;
    }
    if Taken(prev, c) {
      var k :| Bound(k) in prev && k.chord == c;
      assert Bound(k) in more;
    }
  }

  /** Members of a table are told apart by their chords alone. */
  lemma ChordsApart(slots: seq<Slot>, m: ModKey, shipped: seq<Default>, a: ResolvedKeymap, b: ResolvedKeymap)
    requires ShippedOk(shipped) && Resolvable(slots)
    requires Belongs(slots, DefaultsWithMod(m, shipped), a) && Belongs(slots, DefaultsWithMod(m, shipped), b)
    requires a.chord == b.chord
    ensures a == b
  {
    var d := DefaultsWithMod(m, shipped);
    assert Bound(a) in slots || Bound(b) in slots ==> Taken(slots, a.chord);
    if Bound(a) in slots && Bound(b) in slots {
      var i :| 0 <= i < |slots| && slots[i] == Bound(a);
      var j :| 0 <= j < |slots| && slots[j] == Bound(b);
    } else if a in d && b in d {
      var i :| 0 <= i < |d| && d[i] == a;
      var j :| 0 <= j < |d| && d[j] == b;
      RebindingInjective(m, shipped[i].chord, shipped[j].chord);
      assert i == j;
    }
  }

  lemma IdOrder()
    ensures TotalPreorder(IdLe)
  {
    forall x, y ensures IdLe(x, y) || IdLe(y, x) {
      StrLeTotal(Id(x), Id(y));
    }
    forall x, y, z | IdLe(x, y) && IdLe(y, z) ensures IdLe(x, z) {
      StrLeTransitive(Id(x), Id(y), Id(z));
    }
  }

  lemma SortedTable(cfg: Config, shipped: seq<Default>, table: seq<ResolvedKeymap>)
    requires ShippedOk(shipped) && Resolvable(Slots(cfg.keymaps))
    requires HoldsExactly(table, Slots(cfg.keymaps), DefaultsWithMod(cfg.modKey, shipped))
    ensures Resolves(cfg, shipped, SortBy(IdLe, table))
  {
    var t := SortBy(IdLe, table);
    IdOrder();
    SortSorts(IdLe, table);
    SortMembers(IdLe, table);
    SortDistinct(IdLe, table);
    forall i, j | 0 <= i < j < |t| ensures Id(t[i]) != Id(t[j]) {
      assert t[i] in t && t[j] in t;
      BelongsIsGlobal(cfg, shipped, t[i]);
      BelongsIsGlobal(cfg, shipped, t[j]);
      SameIdSameChord(t[i], t[j]);
      if t[i].chord == t[j].chord {
        ChordsApart(Slots(cfg.keymaps), cfg.modKey, shipped, t[i], t[j]);
      }
    }
  }

  /** A configuration has one resolved table, and it depends on the entries only
      through the bindings they make. */
  lemma ResolvedTableUnique(a: Config, b: Config, shipped: seq<Default>,
                            s: seq<ResolvedKeymap>, t: seq<ResolvedKeymap>)
    requires Resolves(a, shipped, s) && Resolves(b, shipped, t) && a.modKey == b.modKey
    requires forall k :: Bound(k) in Slots(a.keymaps) <==> Bound(k) in Slots(b.keymaps)
    ensures s == t
  {
    var d := DefaultsWithMod(a.modKey, shipped);
    forall k ensures Belongs(Slots(a.keymaps), d, k) <==> Belongs(Slots(b.keymaps), d, k) {
      assert Taken(Slots(a.keymaps), k.chord) <==> Taken(Slots(b.keymaps), k.chord);
    }
    forall x, y | x in s && y in s && IdLe(x, y) && IdLe(y, x) ensures x == y {
      StrLeAntisymmetric(Id(x), Id(y));
      var i :| 0 <= i < |s| && s[i] == x;
      var j :| 0 <= j < |s| && s[j] == y;
      assert i == j;
    }
    SortedUnique(IdLe, s, t);
  }

  // ---------------------------------------------------------------- matching

  function FirstMatch(maps: seq<ResolvedKeymap>, key: KeyRef): Option<Actions.ChromeAction> {
    if maps == [] then None
    else if Matches(key, maps[0].chord) then Some(maps[0].action)
    else FirstMatch(maps[1..], key)
  }

  /** `match_keymap`: a scan for the first exact match. */
  method MatchKeymap(maps: seq<ResolvedKeymap>, key: KeyRef) returns (r: Option<Actions.ChromeAction>)
    ensures r == FirstMatch(maps, key)
    ensures r.None? <==> forall k :: k in maps ==> k.chord != Pressed(key)
    ensures r.Some? ==> exists k :: k in maps && k.chord == Pressed(key) && k.action == r.value
  {
    for i := 0 to |maps|
      invariant FirstMatch(maps, key) == FirstMatch(maps[i..], key)
      invariant forall j :: 0 <= j < i ==> maps[j].chord != Pressed(key)
    {
      if Matches(key, maps[i].chord) {
        assert maps[i] in maps;
        return Some(maps[i].action);
      }
    }
    return None;
  }

  lemma {:induction false} FirstMatchFinds(maps: seq<ResolvedKeymap>, key: KeyRef)
    ensures FirstMatch(maps, key).None? <==> forall k :: k in maps ==> k.chord != Pressed(key)
    ensures FirstMatch(maps, key).Some? ==>
              exists k :: k in maps && k.chord == Pressed(key) && k.action == FirstMatch(maps, key).value
  {
    if maps == [] {
    } else {
      FirstMatchFinds(maps[1..], key);
      assert maps == [maps[0]] + maps[1..];
      assert maps[0] in maps;
    }
  }

  /** The action a user entry binds to a chord: the reference for the overlay. */
  function UserAction(slots: seq<Slot>, c: Chord): Option<Actions.ChromeAction> {
    if slots == [] then None
    else if slots[0].Bound? && slots[0].k.chord == c then Some(slots[0].k.action)
    else UserAction(slots[1..], c)
  }

  /** The shipped binding that answers a press under the mod, if any. */
  function DefaultAction(m: ModKey, shipped: seq<Default>, key: KeyRef): Option<Actions.ChromeAction> {
    if shipped == [] then None
    else if FiresOn(m, shipped[0].chord, key) then Some(shipped[0].action)
    else DefaultAction(m, shipped[1..], key)
  }

  /** User entry, else shipped default, else nothing. */
  function Expected(cfg: Config, shipped: seq<Default>, key: KeyRef): Option<Actions.ChromeAction> {
    var user := UserAction(Slots(cfg.keymaps), Pressed(key));
    if user.Some? then user else DefaultAction(cfg.modKey, shipped, key)
  }

  lemma {:induction false} UserActionFound(slots: seq<Slot>, c: Chord)
    ensures UserAction(slots, c).None? <==> !Taken(slots, c)
    ensures UserAction(slots, c).Some? ==>
              exists k :: Bound(k) in slots && k.chord == c && k.action == UserAction(slots, c).value
  {
    if slots == [] {
    } else {
      UserActionFound(slots[1..], c);
      assert forall x :: x in slots <==> x == slots[0] || x in slots[1..];
      if slots[0].Bound? && slots[0].k.chord == c {
        assert Bound(slots[0].k) in slots;
      } else if UserAction(slots[1..], c).Some? {
        var k :| Bound(k) in slots[1..] && k.chord == c && k.action == UserAction(slots[1..], c).value;
        assert Bound(k) in slots;
      }
    }
  }

  lemma {:induction false} DefaultActionFound(m: ModKey, shipped: seq<Default>, key: KeyRef)
    ensures DefaultAction(m, shipped, key).None? <==>
              forall i :: 0 <= i < |shipped| ==> !FiresOn(m, shipped[i].chord, key)
    ensures DefaultAction(m, shipped, key).Some? ==>
              exists i :: 0 <= i < |shipped| && FiresOn(m, shipped[i].chord, key)
                          && shipped[i].action == DefaultAction(m, shipped, key).value
  {
    if shipped != [] && !FiresOn(m, shipped[0].chord, key) {
      DefaultActionFound(m, shipped[1..], key);
      if DefaultAction(m, shipped, key).Some? {
        var i :| 0 <= i < |shipped[1..]| && FiresOn(m, shipped[1..][i].chord, key)
                 && shipped[1..][i].action == DefaultAction(m, shipped, key).value;
        assert shipped[i + 1] == shipped[1..][i];
      } else {
        forall i | 0 <= i < |shipped| ensures !FiresOn(m, shipped[i].chord, key) {
          assert i > 0 ==> shipped[i] == shipped[1..][i - 1];
        }
      }
    }
  }

  /** For every configuration and every press, the sorted table answers as the
      plain overlay does. */
  lemma MatchIsOverlay(cfg: Config, shipped: seq<Default>, table: seq<ResolvedKeymap>, key: KeyRef)
    requires ShippedOk(shipped) && Resolvable(Slots(cfg.keymaps)) && Resolves(cfg, shipped, table)
    ensures FirstMatch(table, key) == Expected(cfg, shipped, key)
  {
    var c := Pressed(key);
    var slots, d := Slots(cfg.keymaps), DefaultsWithMod(cfg.modKey, shipped);
    FirstMatchFinds(table, key);
    UserActionFound(slots, c);
    DefaultActionFound(cfg.modKey, shipped, key);
    forall i | 0 <= i < |shipped|
      ensures FiresOn(cfg.modKey, shipped[i].chord, key) <==> ApplyTo(cfg.modKey, shipped[i].chord) == c
    {
      RebindingFires(cfg.modKey, shipped[i].chord, key);
    }
    if UserAction(slots, c).Some? {
      var k :| Bound(k) in slots && k.chord == c && k.action == UserAction(slots, c).value;
      OneAnswer(cfg, shipped, table, key, k);
    } else if DefaultAction(cfg.modKey, shipped, key).Some? {
      var i :| 0 <= i < |shipped| && FiresOn(cfg.modKey, shipped[i].chord, key)
               && shipped[i].action == DefaultAction(cfg.modKey, shipped, key).value;
      assert d[i] in d;
      OneAnswer(cfg, shipped, table, key, d[i]);
    } else {
      NoAnswer(cfg, shipped, table, c);
    }
  }

  /** A shipped binding answers the presses its chord fires on, unless a user
      entry takes them. */
  lemma ShippedAnswers(cfg: Config, shipped: seq<Default>, table: seq<ResolvedKeymap>, key: KeyRef, i: nat)
    requires ShippedOk(shipped) && Resolvable(Slots(cfg.keymaps)) && Resolves(cfg, shipped, table)
    requires i < |shipped| && FiresOn(cfg.modKey, shipped[i].chord, key) && !Taken(Slots(cfg.keymaps), Pressed(key))
    ensures FirstMatch(table, key) == Some(shipped[i].action)
  {
    var d := DefaultsWithMod(cfg.modKey, shipped);
    RebindingFires(cfg.modKey, shipped[i].chord, key);
    assert d[i] in d;
    OneAnswer(cfg, shipped, table, key, d[i]);
  }

  /** A shipped chord without alt answers its own press under both mods. */
  lemma AltFreeAnswersItself(cfg: Config, shipped: seq<Default>, table: seq<ResolvedKeymap>, i: nat)
    requires ShippedOk(shipped) && Resolvable(Slots(cfg.keymaps)) && Resolves(cfg, shipped, table)
    requires i < |shipped| && !shipped[i].chord.alt && !Taken(Slots(cfg.keymaps), shipped[i].chord)
    ensures var c := shipped[i].chord;
            FirstMatch(table, KeyRef(c.key, c.ctrl, c.alt, c.shift, c.superHeld)) == Some(shipped[i].action)
  {
    var c := shipped[i].chord;
    ShippedAnswers(cfg, shipped, table, KeyRef(c.key, c.ctrl, c.alt, c.shift, c.superHeld), i);
  }

  /** A single-chord entry that parses answers its own chord. */
  lemma UserEntryAnswers(cfg: Config, shipped: seq<Default>, table: seq<ResolvedKeymap>, key: KeyRef, i: nat)
    requires ShippedOk(shipped) && Resolvable(Slots(cfg.keymaps)) && Resolves(cfg, shipped, table)
    requires i < |cfg.keymaps| && !IsPrefixShape(cfg.keymaps[i].chord)
    requires ChordOf(cfg.keymaps[i].chord) == Some(Pressed(key))
    ensures Actions.ParseAction(cfg.keymaps[i].action).Ok?
    ensures FirstMatch(table, key) == Some(Actions.ParseAction(cfg.keymaps[i].action).value)
  {
    var slots := Slots(cfg.keymaps);
    assert slots[i] == SlotOf(cfg.keymaps[i]) && slots[i] in slots;
    OneAnswer(cfg, shipped, table, key, slots[i].k);
  }

  /** A member of the table with the pressed chord is the answer. */
  lemma OneAnswer(cfg: Config, shipped: seq<Default>, table: seq<ResolvedKeymap>, key: KeyRef, k: ResolvedKeymap)
    requires ShippedOk(shipped) && Resolvable(Slots(cfg.keymaps)) && Resolves(cfg, shipped, table)
    requires Belongs(Slots(cfg.keymaps), DefaultsWithMod(cfg.modKey, shipped), k) && k.chord == Pressed(key)
    ensures FirstMatch(table, key) == Some(k.action)
  {
    FirstMatchFinds(table, key);
    assert k in table;
    var f :| f in table && f.chord == Pressed(key) && f.action == FirstMatch(table, key).value;
    ChordsApart(Slots(cfg.keymaps), cfg.modKey, shipped, k, f);
  }

  lemma NoAnswer(cfg: Config, shipped: seq<Default>, table: seq<ResolvedKeymap>, c: Chord)
    requires Resolves(cfg, shipped, table) && !Taken(Slots(cfg.keymaps), c)
    requires forall i :: 0 <= i < |shipped| ==> ApplyTo(cfg.modKey, shipped[i].chord) != c
    ensures forall k :: k in table ==> k.chord != c
  {
    var d := DefaultsWithMod(cfg.modKey, shipped);
    forall k | k in table ensures k.chord != c {
      if k in d {
        var i :| 0 <= i < |d| && d[i] == k;
      }
    }
  }

  // ---------------------------------------------------------------- typing

  /** Every chord of a resolved table is one the chord parser could return, so a
      character key never stands alone. */
  lemma TableChordsValid(cfg: Config, shipped: seq<Default>, table: seq<ResolvedKeymap>, k: ResolvedKeymap)
    requires ShippedOk(shipped) && Resolves(cfg, shipped, table) && k in table
    ensures ValidChord(k.chord) && Actions.ValidAction(k.action)
  {
    var d := DefaultsWithMod(cfg.modKey, shipped);
    if Bound(k) in Slots(cfg.keymaps) {
      var i :| 0 <= i < |cfg.keymaps| && Slots(cfg.keymaps)[i] == Bound(k);
      SlotIsValid(cfg.keymaps[i]);
    } else {
      var i :| 0 <= i < |d| && d[i] == k;
      RebindingStaysHeld(cfg.modKey, shipped[i].chord);
    }
  }

  lemma SlotIsValid(e: KeymapEntry)
    requires SlotOf(e).Bound?
    ensures ValidChord(SlotOf(e).k.chord) && Actions.ValidAction(SlotOf(e).k.action)
  {
    ParsedIsValid(e.chord);
    Actions.ParsedIsValid(e.action);
  }

  /** No configuration can take an unmodified character from the shell. */
  lemma TypingNeverStolen(cfg: Config, shipped: seq<Default>, table: seq<ResolvedKeymap>, c: char)
    requires ShippedOk(shipped) && Resolves(cfg, shipped, table)
    ensures FirstMatch(table, KeyRef(Char(c), false, false, false, false)) == None
  {
    var key := KeyRef(Char(c), false, false, false, false);
    FirstMatchFinds(table, key);
    forall k | k in table ensures k.chord != Pressed(key) {
      TableChordsValid(cfg, shipped, table, k);
    }
  }

  // ---------------------------------------------------------------- the binding shown

  /** Canonical chords of one source bound to an action spelling. */
  function ShownChords(table: seq<ResolvedKeymap>, want: string, fromDefault: bool): seq<string> {
    if table == [] then []
    else
      (if table[0].fromDefault == fromDefault && Actions.Canonical(table[0].action) == want
       then [Canonical(table[0].chord)] else [])
      + ShownChords(table[1..], want, fromDefault)
  }

  function First(s: seq<string>): Option<string> { if s == [] then None else Some(s[0]) }

  /** `effective_binding_for_action`. */
  function EffectiveBinding(table: seq<ResolvedKeymap>, action: Actions.ChromeAction): Option<string> {
    var want := Actions.Canonical(action);
    var user := SortBy(StrLe, ShownChords(table, want, false));
    if user != [] then First(user) else First(SortBy(StrLe, ShownChords(table, want, true)))
  }

  /** A table entry of the given source that carries out `want`. */
  predicate Carries(k: ResolvedKeymap, want: string, fromDefault: bool) {
    k.fromDefault == fromDefault && Actions.Canonical(k.action) == want
  }

  ghost predicate ShowsChord(table: seq<ResolvedKeymap>, want: string, fromDefault: bool, s: string) {
    exists k :: k in table && Carries(k, want, fromDefault) && Canonical(k.chord) == s
  }

  lemma ShowsChordCons(k: ResolvedKeymap, rest: seq<ResolvedKeymap>, want: string, fromDefault: bool, s: string)
    ensures ShowsChord([k] + rest, want, fromDefault, s)
       <==> (Carries(k, want, fromDefault) && Canonical(k.chord) == s) || ShowsChord(rest, want, fromDefault, s)
  {
    var all := [k] + rest;
    assert k in all;
    assert forall x :: x in rest ==> x in all;
  }

  lemma {:induction false} ShownMembers(table: seq<ResolvedKeymap>, want: string, fromDefault: bool, s: string)
    ensures s in ShownChords(table, want, fromDefault) <==> ShowsChord(table, want, fromDefault, s)
  {
    if table == [] {
    } else {
      ShownMembers(table[1..], want, fromDefault, s);
      ShowsChordCons(table[0], table[1..], want, fromDefault, s);
      assert table == [table[0]] + table[1..];
    }
  }

  lemma StringOrder()
    ensures TotalPreorder(StrLe)
  {
    forall x, y ensures StrLe(x, y) || StrLe(y, x) {
      StrLeTotal(x, y);
    }
    forall x, y, z | StrLe(x, y) && StrLe(y, z) ensures StrLe(x, z) {
      StrLeTransitive(x, y, z);
    }
  }

  lemma FirstIsSmallest(list: seq<string>)
    ensures First(SortBy(StrLe, list)).None? <==> list == []
    ensures list != [] ==> First(SortBy(StrLe, list)).value in list
    ensures list != [] ==> forall s :: s in list ==> StrLe(First(SortBy(StrLe, list)).value, s)
  {
    var sorted := SortBy(StrLe, list);
    StringOrder();
    SortSorts(StrLe, list);
    SortMembers(StrLe, list);
    SortPermutes(StrLe, list);
    if list != [] {
      assert sorted[0] in sorted;
      forall s | s in list ensures StrLe(sorted[0], s) {
        var i :| 0 <= i < |sorted| && sorted[i] == s;
        StrLeReflexive(s);
      }
    }
  }

  /** The chord shown for an action is bound to it, preferring user chords and
      then the smallest spelling. */
  lemma ShownBinding(table: seq<ResolvedKeymap>, action: Actions.ChromeAction) returns (k: ResolvedKeymap)
    requires EffectiveBinding(table, action).Some?
    ensures k in table && Canonical(k.chord) == EffectiveBinding(table, action).value
    ensures Carries(k, Actions.Canonical(action), k.fromDefault)
    ensures k.fromDefault ==> forall u :: u in table ==> !Carries(u, Actions.Canonical(action), false)
    ensures forall u :: u in table && Carries(u, Actions.Canonical(action), k.fromDefault) ==>
              StrLe(Canonical(k.chord), Canonical(u.chord))
  {
    var want := Actions.Canonical(action);
    var user, shipped := ShownChords(table, want, false), ShownChords(table, want, true);
    FirstIsSmallest(user);
    FirstIsSmallest(shipped);
    var source := user == [];
    var list := if source then shipped else user;
    var s := EffectiveBinding(table, action).value;
    assert s in list;
    ShownMembers(table, want, source, s);
    k :| k in table && Carries(k, want, source) && Canonical(k.chord) == s;
    forall u | u in table && Carries(u, want, source) ensures StrLe(s, Canonical(u.chord)) {
      ShownMembers(table, want, source, Canonical(u.chord));
      assert Canonical(u.chord) in list;
    }
    if source {
      forall u | u in table ensures !Carries(u, want, false) {
        ShownMembers(table, want, false, Canonical(u.chord));
      }
    }
  }

  /** The binding shown is the binding that fires, and an action without one
      cannot be fired by any press. */
  lemma ShownBindingFires(cfg: Config, shipped: seq<Default>, table: seq<ResolvedKeymap>,
                          action: Actions.ChromeAction, key: KeyRef)
    requires ShippedOk(shipped) && Resolvable(Slots(cfg.keymaps)) && Resolves(cfg, shipped, table)
    requires Actions.ValidAction(action)
    ensures EffectiveBinding(table, action) == Some(Canonical(Pressed(key))) ==> FirstMatch(table, key) == Some(action)
    ensures EffectiveBinding(table, action) == None ==> FirstMatch(table, key) != Some(action)
  {
    var want := Actions.Canonical(action);
    if EffectiveBinding(table, action) == Some(Canonical(Pressed(key))) {
      var k := ShownBinding(table, action);
      CanonicalInjective(k.chord, Pressed(key));
      OneAnswer(cfg, shipped, table, key, k);
      TableChordsValid(cfg, shipped, table, k);
      Actions.CanonicalInjective(k.action, action);
    }
    if EffectiveBinding(table, action) == None {
      FirstIsSmallest(ShownChords(table, want, false));
      FirstIsSmallest(ShownChords(table, want, true));
      FirstMatchFinds(table, key);
      if FirstMatch(table, key) == Some(action) {
        var k :| k in table && k.chord == Pressed(key) && k.action == action;
        ShownMembers(table, want, k.fromDefault, Canonical(k.chord));
      }
    }
  }
}
