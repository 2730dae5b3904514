# Verified model of the bitty configuration core

`bitty-config` turns untrusted text (a Lua table already read into raw fields, CLI flags, key bindings) into one
effective terminal configuration. This project models the parts of it that hold state, loops or grammars, together
with two table and index generators of the same repository, and proves what they promise for every input:

- `ArgsJson.dfy`, `JsonText.dfy`: the structural gate in front of the JSON args parser, a flat byte loop with a
  bracket stack, proved equal to a recursive bracket grammar and shown to let every RFC 8259 text through.
- `Chords.dfy`, `Actions.dfy`: parsers and printers of key chords and chrome actions. The printers are injective,
  which is what makes the string-keyed merges below sound.
- `ChordStrings.dfy`, `ActionStrings.dfy`: the same parsers on whole strings, against tables of spellings: which
  strings spell which chord and which action, and why every other action string is refused.
- `Keymaps.dfy`, `PrefixBindings.dfy`: the two resolved key tables, their matchers, and their independence.
- `Leader.dfy`: the timed Leader window as a state machine, over whole runs.
- `Salvage.dfy`: the startup loop that drops one failing raw element at a time.
- `ProfileChain.dfy`: the walk along `extends`, with its visited list and length bound.
- `LayerMerge.dfy`, `CliLayer.dfy`: the per-field layer merge with attribution, policy pins and conflicts, and the
  CLI layer put over an already merged base.
- `ProfileLayers.dfy`: a loaded profile chain in that merge, the requested profile over its ancestors.
- `UnicodeTables.dfy`: range merging, selection and the emitted binary searches.
- `ControlStanza.dfy`: the Debian control field parser and package stanza printer (Debian Policy Manual,
  section 5.1).
- `Text.dfy`, `Ordering.dfy`, `Wrappers.dfy`: trimming, splitting, UTF-8 lengths, decimal spelling, string order,
  stable sorting, options and results.

Strings are sequences of Unicode scalar values with an explicit UTF-8 encoding where the source counts or scans
bytes; whitespace is the concrete White_Space set of the runtime concerned. Where the source loops or mutates, the
model is a method proved against a specification function, and the properties are lemmas about that function.

## How the proofs fit together

`Chords.CanonicalInjective` gives `Keymaps.ResolveKeymaps` and `PrefixBindings.ResolvePrefixBindings` their unique
string identities; `Actions.CanonicalInjective` turns "same canonical spelling" into "same action" in
`Keymaps.ShownBindingFires`; `ArgsJson.GateDecidesGrammar` and `JsonText.JsonIsNeverRefused` share the recursive
grammar; `ArgsJson.ReasonsExactly` gives `ActionStrings.RefusedExactly` the reasons a binding's document is refused for;
`LayerMerge` supplies the step facts `CliLayer.CliDoesNotInterfere` needs for its second merge.

## What the model shows about the code

- `Chord::canonical` spells the `+` key as an empty segment, which `Chord::parse` refuses. `Chords.ParseOfCanonical`
  states the round trip with exactly that exception; the printer stays injective all the same.
- `ModKey::apply_to` is not injective: under Super, two chords alike but for alt and Super become one when one holds
  alt and the other holds either (`Chords.CollidingPair` is an instance). `Chords.RebindingCollides` says that these
  are all the collisions, and `Chords.RebindingKeepsDistinct` when a whole table stays distinct; without Super it does
  (`Chords.RebindingInjective`).
- The order of a chord's segments never changes whether it is accepted or what it means (`Chords.OrderAndCaseIgnored`),
  but it can change which fault a refusal names, since that is the first one in segment order (`Chords.BlameUnique`).
  The faults the orders of given segments can show are read off their members and counts
  (`Chords.ShownFaultsExactly`), and the order shows exactly when there are two of them (`Chords.OrderShowsExactly`);
  `Chords.OrderShowsInRefusals` is an instance. Letter case changes neither (`Chords.CaseIgnored`).
- The salvage loop does not always drop a faulty `leader_key` or `leader_timeout_ms`: an `input` table that declares
  the alias of its own and has no fault itself hides the legacy scalar, which is then never checked and stays
  (`Salvage.ShieldedLeaderStays` for any leader that is no chord, `Salvage.UnknownLeaderStays` for one).
  `Salvage.DropsExactlyTheFaulty` is the exact rule on the input, and `Salvage.PlainRuleExactly` says when the plain
  rule "dropped exactly when faulty" holds; for every other element it always does
  (`Salvage.DropsExactlyTheFaultyUnaliased`). Neither guard of the loop ever decides (`Salvage.CapNeverReached`).
- After CLI layering the listed font and window fields keep their sources, but four sources can become the CLI's
  although no flag names them: `schema_version`, and the table names `font`, `window` and `appearance` when a flag
  touches the table. `CliLayer.CliDoesNotInterfere` states all modelled sources exactly.
- Printing a package stanza and reading it back is exact if and only if each added string is a value the reader could
  have returned (`ControlStanza.StanzaRoundTrip`), which includes every single trimmed line.

## Model

| member | source | states |
|---|---|---|
| ArgsJson.ValidateJsonArgsBlob | crates/bitty-config/src/args_json.rs:43-121 | the gate accepts a blob exactly when it has at most 65536 bytes and its trimmed text is one bracket group of the recursive grammar nested at most 32 deep, and a refusal gives the reason the text shows |
| ArgsJson.ScanBytes | crates/bitty-config/src/args_json.rs:60-104 | the byte loop leaves the state of the recursive scan, with the depth counter equal to the stack height and within the cap |
| ArgsJson.GateDecidesGrammar | crates/bitty-config/src/args_json.rs:43-121 | flat scan and recursive language agree on every string |
| ArgsJson.ReasonsExactly | crates/bitty-config/src/args_json.rs:43-121 | each reason is given exactly for its own texts: an end inside a string, the first closer that fits no innermost group or an end with a group open, the first opener past 32, items after a whole root, and so on, told from the items and open groups before that place |
| ArgsJson.OneAnswer | crates/bitty-config/src/args_json.rs:43-121 | no text shows two reasons, and none beside an accepted document |
| ArgsJson.AcceptedIsDocument | crates/bitty-config/src/args_json.rs:50-120 | from an accepted scan the document tree can be rebuilt, rendering to the same text |
| ArgsJson.DocumentIsAccepted | crates/bitty-config/src/args_json.rs:50-120 | every document within the caps, once rendered, is accepted |
| ArgsJson.DepthIsStackHeight | crates/bitty-config/src/args_json.rs:83-103 | along every scan the depth counter is the stack height, so the saturating decrement never saturates |
| ArgsJson.RootEndIsBoundary | crates/bitty-config/src/args_json.rs:87-114 | the recorded end of the root value is always a character boundary, so the slice after it cannot panic |
| ArgsJson.BytesRunAsChars | crates/bitty-config/src/args_json.rs:69-104 | scanning UTF-8 bytes is scanning characters: continuation bytes never act as brackets, quotes or escapes |
| ArgsJson.DocumentsArePrefixFree | crates/bitty-config/src/args_json.rs:111-115 | no accepted document is a proper prefix of another |
| JsonText.JsonIsNeverRefused | crates/bitty-config/src/args_json.rs:50-120 | every RFC 8259 text (sections 2, 4, 5 and 7) rooted at an object or array within the caps is accepted |
| Chords.ParseChord | crates/bitty-config/src/keymap.rs:425-527 | the flag-setting pass returns the chord the segments denote, or refuses naming the first fault in segment order |
| Chords.BlameUnique | crates/bitty-config/src/keymap.rs:425-527 | a refused string has exactly one refusal |
| Chords.RefusedExactly | crates/bitty-config/src/keymap.rs:425-527 | a string is refused exactly when there is something to blame it for |
| ChordStrings.StringSpellsChord | crates/bitty-config/src/keymap.rs:425-627 | a string parses to a chord exactly when, within 64 bytes, its segments spell the key once by one of its words, each held modifier once by one of its words, and nothing else, a character key only with a modifier |
| ChordStrings.KeyOfExactly | crates/bitty-config/src/keymap.rs:553-627 | a segment is read as exactly the key whose word, `f` number or character it is |
| ChordStrings.ModifierWordsExactly | crates/bitty-config/src/keymap.rs:455-486 | a segment is read as a modifier exactly when it is one of that modifier's spellings |
| ChordStrings.CapitalsIgnored | crates/bitty-config/src/keymap.rs:425-527 | strings alike but for capitals of the same letters give one chord |
| Chords.ParsedIsValid | crates/bitty-config/src/keymap.rs:507-527 | every parsed chord is a valid one: a character key is held by some modifier and is folded |
| Chords.ValidIsParseable | crates/bitty-config/src/keymap.rs:425-627 | conversely every valid chord has a spelling that parses to it |
| Chords.TokensInAnyOrder | crates/bitty-config/src/keymap.rs:425-527 | parsing depends only on the multiset of segments |
| Chords.CaseIgnored | crates/bitty-config/src/keymap.rs:425-527 | strings equal up to ASCII case give the same chord or the very same refusal |
| Chords.OrderAndCaseIgnored | crates/bitty-config/src/keymap.rs:425-527 | permuting the `+`-separated parts, re-casing them and putting blanks around them gives the same chord, or both spellings are refused, within the length bound |
| Chords.CanonicalInjective | crates/bitty-config/src/keymap.rs:357-377 | no two chords share a canonical spelling |
| ChordStrings.KeyTextFirst | crates/bitty-config/src/keymap.rs:357-377 | a named key prints as the first of its spellings |
| Chords.ParseOfCanonical | crates/bitty-config/src/keymap.rs:425-551 | parsing undoes printing for every valid chord, and refuses exactly the spelling of a `+` key |
| Chords.ShownFaultsExactly | crates/bitty-config/src/keymap.rs:425-527 | some order of the segments shows a fault first exactly when the members and counts of the segments leave room for it |
| Chords.OrderShowsExactly | crates/bitty-config/src/keymap.rs:425-527 | two orders of the same segments show different faults exactly when the segments leave room for two |
| Chords.OrderShowsInRefusals | crates/bitty-config/src/keymap.rs:425-527 | an instance: two orders of the same segments, both refused, for different faults |
| Chords.RebindingStaysHeld | crates/bitty-config/src/keymap.rs:295-307 | the Super rebinding keeps a held modifier on every chord and keeps chords valid |
| Chords.RebindingMovesAlt | crates/bitty-config/src/keymap.rs:295-307 | the rebinding keeps the key, ctrl and shift, changes nothing under Alt and on chords without alt, and otherwise clears alt and holds Super |
| Chords.RebindingInjective | crates/bitty-config/src/keymap.rs:295-307 | the rebinding is injective on chords without Super |
| Chords.RebindingCollides | crates/bitty-config/src/keymap.rs:295-307 | two chords become one exactly when they are equal, or the mod is Super and they differ only in how alt and Super are held, with alt on one and either on the other |
| Chords.CollidingPair | crates/bitty-config/src/keymap.rs:295-307 | a different pair that becomes one, for every key |
| Chords.RebindingKeepsDistinct | crates/bitty-config/src/keymap.rs:2044-2063 | a table of distinct chords stays distinct exactly when the mod is alt or no two of them collide |
| Chords.MatchesIsPressed | crates/bitty-config/src/keymap.rs:1798-1810 | a press matches exactly one chord, the one it spells |
| Actions.ParsedIsValid | crates/bitty-config/src/keymap.rs:1059-1284 | what the action parser returns meets the bounds of its form: numbers in range, qualified lower-case targets, trimmed documents that pass the args gate |
| ActionStrings.CatalogActionExactly | crates/bitty-config/src/keymap.rs:1059-1284 | a string is accepted as a catalog action exactly when it is, in any case and among blanks, one of the action's names, followed for an argument-free action by nothing or a colon and blanks, and otherwise by a colon and one direction word or one number in range, within 320 bytes |
| ActionStrings.CatalogExactly | crates/bitty-config/src/keymap.rs:1092-1267 | the match on the head gives an action for exactly the spellings of head and argument that name it |
| ActionStrings.RefusedExactly | crates/bitty-config/src/keymap.rs:1059-1284 | every other string is refused for exactly one reason, read off its head, its argument and, for a command, its first word and its document |
| ActionStrings.HasParts | crates/bitty-config/src/keymap.rs:1061-1071 | every string is a head, perhaps with a colon and an argument, among blanks, so the statements about parts cover every string |
| Actions.NamesApart | crates/bitty-config/src/keymap.rs:1092-1267 | no spelling of a head names two actions |
| ActionStrings.TargetIsQualified | crates/bitty-config/src/keymap.rs:1687-1730 | a command target is accepted exactly when it is an owner and a command around its one colon, without space or NUL, within 257 bytes |
| Actions.ParseOfCanonical | crates/bitty-config/src/keymap.rs:1059-1333 | parsing the canonical spelling of any such action gives the action back, and the spelling fits the length bounds |
| Actions.CanonicalIsStable | crates/bitty-config/src/keymap.rs:1059-1333 | for every accepted string, print then parse is the identity on the parsed action |
| Actions.CanonicalInjective | crates/bitty-config/src/keymap.rs:1285-1333 | two parsed actions share a canonical spelling only when equal |
| Actions.CommandFormParses | crates/bitty-config/src/keymap.rs:1662-1730 | every command spelling within the bound, with blanks around the whole, the head, the target and the `--`, parses to its lowered target and its unchanged document |
| Actions.CommandHasForm | crates/bitty-config/src/keymap.rs:1059-1284 | conversely every accepted string that invokes a command is such a spelling |
| Actions.CommandKeepsArgs | crates/bitty-config/src/keymap.rs:1662-1685 | for every accepted string with an args document, the document stands in the string character for character while the target is lowered |
| Actions.CommandWithoutArgs | crates/bitty-config/src/keymap.rs:1662-1675 | every accepted string without a document is a head and a target among blanks |
| Keymaps.ResolveKeymaps | crates/bitty-config/src/keymap.rs:2104-2136 | resolution succeeds exactly when all single-chord entries parse and their chords are pairwise distinct; the table is sorted, with unique ids, and holds the user bindings over the rebound defaults and nothing else; a refusal names the first entry at fault |
| Keymaps.RefusalUnique | crates/bitty-config/src/keymap.rs:2104-2136 | a refused configuration has exactly one refusal |
| Keymaps.MatchKeymap | crates/bitty-config/src/keymap.rs:2137-2150 | the scan answers from a matching binding, and with nothing exactly when none matches |
| Keymaps.MatchIsOverlay | crates/bitty-config/src/keymap.rs:2044-2150 | for every configuration and press the table answers the user action bound to the chord, else the shipped action whose chord fires on that press under the mod, else nothing |
| Keymaps.ShippedAnswers | crates/bitty-config/src/keymap.rs:2044-2150 | a shipped binding answers the presses its chord fires on under the mod unless a user entry takes them |
| Keymaps.AltFreeAnswersItself | crates/bitty-config/src/keymap.rs:2044-2150 | a shipped chord without alt answers its own press under both mods unless a user entry takes it |
| Keymaps.UserEntryAnswers | crates/bitty-config/src/keymap.rs:2104-2150 | a user entry that parses answers its own chord |
| Keymaps.ContextExactly | crates/bitty-config/src/keymap.rs:2070-2085 | the one accepted context is the word `global`, in any case, among blanks |
| Keymaps.ResolvedTableUnique | crates/bitty-config/src/keymap.rs:2104-2136 | the resolved table depends on the entries only through the bindings they make, not on their order |
| Keymaps.TableChordsValid | crates/bitty-config/src/keymap.rs:2044-2136 | every chord and action in a resolved table is one its parser could return |
| Keymaps.TypingNeverStolen | crates/bitty-config/src/keymap.rs:507-520 | no resolved table matches an unmodified character press, under either mod key |
| Keymaps.ShownBinding | crates/bitty-config/src/keymap.rs:1558-1587 | the chord shown for an action is bound to it, a user chord is preferred, and it is the smallest of its source |
| Keymaps.ShownBindingFires | crates/bitty-config/src/keymap.rs:1558-1587 | pressing the chord shown fires that action; when none is shown no press fires it |
| Ordering.StrLeIsLexicographic | crates/bitty-config/src/keymap.rs:2130 | the order the tables are sorted by puts a string before its extensions and otherwise compares the first differing character |
| PrefixBindings.ParsePrefixEntry | crates/bitty-config/src/keymap.rs:2630-2646 | single chords are passed over, prefix-shaped entries become a binding or a refusal naming the first part that does not parse |
| PrefixBindings.ResolvePrefixBindings | crates/bitty-config/src/keymap.rs:2653-2667 | resolution succeeds exactly when every prefix-shaped entry parses; the sorted table holds, per follow-up, the last entry binding it; a refusal names the first refused entry |
| PrefixBindings.PrefixRefusalUnique | crates/bitty-config/src/keymap.rs:2653-2667 | a refused list of entries has exactly one refusal |
| PrefixBindings.MatchPrefix | crates/bitty-config/src/keymap.rs:2673-2680 | the scan finds nothing exactly when no follow-up equals the press |
| PrefixBindings.PrefixLastWins | crates/bitty-config/src/keymap.rs:2653-2680 | a press in the window runs the last entry whose follow-up equals it |
| PrefixBindings.PrefixShapeIsNoChord | crates/bitty-config/src/keymap.rs:2561-2567 | no string is both prefix-shaped and a valid single chord |
| PrefixBindings.SequenceExactly | crates/bitty-config/src/keymap.rs:2561-2646 | a two-word entry binds a sequence exactly when the first word is `leader` in any case and the second, the context and the action parse |
| PrefixBindings.OtherTextIsSingle | crates/bitty-config/src/keymap.rs:2561-2567 | any other chord text is no sequence |
| PrefixBindings.BareFollowUp | crates/bitty-config/src/keymap.rs:2577-2611 | `leader` and a bare character answer exactly the unmodified press of it |
| PrefixBindings.ValidatedEntriesResolve | crates/bitty-config/src/keymap.rs:2175-2185 | entries that validate one by one all parse in both tables, so the prefix table resolves |
| PrefixBindings.PrefixEntriesInvisible | crates/bitty-config/src/keymap.rs:2104-2110 | removing the prefix entries changes neither whether the single-chord table resolves nor what it is |
| Leader.LeaderState.Arm | crates/bitty-config/src/keymap.rs:2453-2457 | arming replaces any pending deadline by the saturated one |
| Leader.LeaderState.Cancel | crates/bitty-config/src/keymap.rs:2462-2468 | cancelling disarms and reports whether there was anything to cancel |
| Leader.LeaderState.PollAt | crates/bitty-config/src/keymap.rs:2474-2487 | a poll expires an armed window at or past its deadline, leaves an earlier one pending, and is idle otherwise |
| Leader.LeaderState.Drive | crates/bitty-config/src/keymap.rs:2446-2487 | a run of calls ends in the state, and gives the replies, of the state machine |
| Leader.ArmsAreConserved | crates/bitty-config/src/keymap.rs:2453-2487 | over every run, arms are expiries plus consumed cancels plus re-arms plus what is still pending |
| Leader.ExpiresAtFirstLatePoll | crates/bitty-config/src/keymap.rs:2453-2487 | an armed window survives early polls and expires at the first poll at or past the deadline of the latest arm |
| Leader.ArmedUntilDeadline | crates/bitty-config/src/keymap.rs:2453-2487 | before the deadline of the latest arm every poll is answered as armed and the first cancel is consumed |
| Leader.IdleUntilArmed | crates/bitty-config/src/keymap.rs:2462-2487 | an idle window stays idle until the next arm: nothing expires and nothing is cancelled |
| Leader.DeadlineNeverWraps | crates/bitty-config/src/keymap.rs:2453-2457 | the deadline is the exact sum while it fits in 64 bits and the largest instant otherwise, so it never precedes the arm |
| Salvage.ConfigData.DropElement | crates/bitty-config/src/file.rs:1636-1677 | dropping clears exactly the element's raw fields and reports whether any was there |
| Salvage.LoadWithPolicy | crates/bitty-config/src/file.rs:1537-1572 | the loop returns what the specification returns, and the data left over is the input without the reported elements |
| Salvage.SalvageAccountsForAll | crates/bitty-config/src/file.rs:1539-1571 | on success the plan is built from the input without the reported elements, each reported once |
| Salvage.SurvivorsUnchanged | crates/bitty-config/src/file.rs:1636-1677 | every surviving raw value is as it was, and only fields of dropped elements are gone |
| Salvage.DropShrinks | crates/bitty-config/src/file.rs:1556-1560 | each drop leaves strictly fewer raw fields, so the loop ends |
| Salvage.CapNeverReached | crates/bitty-config/src/file.rs:1556-1558 | neither the repeat guard nor the cap of 32 drops ever decides the outcome |
| Salvage.StrictIsSilentStartup | crates/bitty-config/src/file.rs:1537-1572 | strict loading yields a plan exactly when startup loading yields it without diagnostics |
| Salvage.DropsExactlyTheFaulty | crates/bitty-config/src/file.rs:1539-1571 | with checks charged to their own elements, startup always succeeds and drops exactly the faulty elements, but for a legacy leader scalar whose alias a fault-free `input` table declares |
| Salvage.PlainRuleExactly | crates/bitty-config/src/file.rs:2756-2800 | every element is dropped exactly when faulty if and only if no faulty legacy scalar is shielded that way |
| Salvage.ShieldedLeaderStays | crates/bitty-config/src/file.rs:2756-2769 | a `leader_key` that is no chord survives beside an `input` table with its own leader |
| Salvage.UnknownLeaderStays | crates/bitty-config/src/file.rs:2756-2769 | one concrete such leader |
| Salvage.DropsExactlyTheFaultyUnaliased | crates/bitty-config/src/file.rs:1539-1571 | an element without a legacy alias is dropped exactly when its own check fails |
| Salvage.SameFaultsSamePlan | crates/bitty-config/src/file.rs:1539-1571 | the checks matter only through which elements they find faulty |
| Salvage.CheckOrderIrrelevant | crates/bitty-config/src/file.rs:1539-1571 | reordering the checks changes neither the plan nor the set of dropped elements |
| Salvage.PathChargesItsElement | crates/bitty-config/src/file.rs:1578-1626 | an error path anywhere inside an element's table is charged to that element |
| Salvage.KeyErrorDropsField | crates/bitty-config/src/file.rs:1578-1677 | an error at a raw field's own key, or at any path under it, is charged to an element whose drop clears that very field |
| Salvage.FieldsDisjoint | crates/bitty-config/src/file.rs:1636-1677 | distinct elements outside the appearance family clear disjoint fields |
| Salvage.AppearanceIsItsParts | crates/bitty-config/src/file.rs:1636-1677 | dropping the appearance element clears exactly what dropping its parts clears |
| Salvage.BadKeyIsDropped | crates/bitty-config/src/file.rs:1537-1572 | a plan that builds once the charged element of a failing key is gone is what startup returns, with one diagnostic |
| Salvage.FailureIsUnsalvageable | crates/bitty-config/src/file.rs:1539-1571 | startup fails only with an error charged to no element, or to one with nothing left to drop |
| ProfileChain.LoadChain | crates/bitty-config/src/file.rs:3483-3533 | the loader returns the followed walk reversed or its error; at most 16 files are read, none twice and no ancestor |
| ProfileChain.LoadsExactlyChains | crates/bitty-config/src/file.rs:3483-3533 | it succeeds exactly when `extends` leads to a parentless profile within 16 loads without a repeat or an ancestor |
| ProfileChain.RevisitIsCycle | crates/bitty-config/src/file.rs:3483-3533 | a revisit within the bound is reported as a cycle, naming the walk |
| ProfileChain.TooLongExactly | crates/bitty-config/src/file.rs:3483-3533 | only a walk of sixteen loads with yet another fresh parent is too long |
| ProfileChain.EndsExactly | crates/bitty-config/src/file.rs:3483-3533 | a walk ends in a result exactly when that result's own condition holds at the end of the path |
| ProfileChain.NotFoundExactly | crates/bitty-config/src/file.rs:3483-3533 | a missing parent within the bound is not found, a missing first profile and a profile that does not load are load failures, and nothing else is either |
| ProfileChain.ParentExactly | crates/bitty-config/src/file.rs:3509-3526 | a layer leads to the profile its `extends` names, ends the chain without one, and is refused when it names none |
| ProfileChain.CycleReportIsHonest | crates/bitty-config/src/file.rs:3483-3533 | the last name of a cycle report already stands in the walk or among the ancestors |
| ProfileChain.ChainIsBaseFirst | crates/bitty-config/src/file.rs:3483-3533 | in the result the root comes first, each link right after its parent, the requested profile last |
| ProfileChain.ValidNamesAreStable | crates/bitty-config/src/file.rs:845-871 | a validated profile name validates to itself and holds no path separator or dot |
| LayerMerge.MergeLayers | crates/bitty-config/src/merge.rs:969-1316 | the loop over sorted layers and their fields computes the specified values, sources, conflicts and first violation |
| LayerMerge.MergeLayerDoes | crates/bitty-config/src/merge.rs:226-243 | one layer replaces and re-attributes exactly the unpinned fields it declares, touches nothing else, and appends exactly one conflict per field taken from another source, in field order |
| LayerMerge.PrecedenceOrder | crates/bitty-config/src/plan.rs:489-506 | the layers rank core defaults, system defaults, policy, distribution, profile, user, trusted local, CLI, and only the policy layer pins |
| LayerMerge.MergeTakesWinner | crates/bitty-config/src/merge.rs:950-957 | every field has the value and source of the declaring layer of highest precedence, the latest among equals, whatever the input order |
| LayerMerge.MergeKeepsDefaults | crates/bitty-config/src/merge.rs:2754-2759 | a field no layer declares keeps its default, attributed to the core defaults |
| LayerMerge.MergeTakesTables | crates/bitty-config/src/merge.rs:985-1316 | the leading font table is taken whole, and the opacity, padding, corner radius, theme, schema version and each background key come from the leading layer that has them |
| LayerMerge.MergeSucceedsExactly | crates/bitty-config/src/merge.rs:969-1316 | a merge succeeds exactly when every layer passes its own checks, no policy pin is contested and, when asked for, the winning values pass the final check; then it yields those values |
| LayerMerge.FirstFailureDecides | crates/bitty-config/src/merge.rs:973-975 | the first layer in input order to fail its own checks decides the error |
| LayerMerge.FinalCheckDecides | crates/bitty-config/src/merge.rs:2755-2760 | valid uncontested layers whose winning values fail the final check are refused with its error |
| LayerMerge.ContestIsNamed | crates/bitty-config/src/merge.rs:2758-2761 | without final validation, contested pins are refused with an error naming a policy layer and a layer that overrides it |
| LayerMerge.ContestIsSharedTable | crates/bitty-config/src/merge.rs:951-955 | a pin is contested exactly when a layer above the policy layer has a font, window or appearance table the policy layer has too |
| LayerMerge.MergeReportsTakeovers | crates/bitty-config/src/merge.rs:226-243 | the conflicts are exactly the fields one layer, in order of precedence, took from another, with both sources |
| LayerMerge.PolicyIsEnforced | crates/bitty-config/src/merge.rs:951-955 | valid layers are refused exactly when a layer above the policy layer declares a field a policy layer pins |
| LayerMerge.ConflictsNameLayers | crates/bitty-config/src/merge.rs:226-243 | a conflict's new source is a layer that declares the field |
| CliLayer.ResolveEffective | crates/bitty-config/src/file.rs:1117-1186 | base merge, base-aware CLI layer, second merge, restore loop and pruning compute the specified result |
| CliLayer.CliPlanSays | crates/bitty-config/src/file.rs:703-797 | whatever the CLI layer declares equals the flag's value or the inherited base value |
| CliLayer.BadFlagsExactly | crates/bitty-config/src/file.rs:624-658 | the flags are refused exactly when some given value fails its own check, with the error of the first such flag |
| CliLayer.BadFlagIsRefused | crates/bitty-config/src/file.rs:703-797 | over a base that merges, the first bad flag is the error of the whole layering |
| CliLayer.LayeringSucceedsExactly | crates/bitty-config/src/file.rs:1117-1186 | layering succeeds exactly when the base merge does and, with a flag given, no flag is bad, the tables made of flags and base values are valid and the merge with the CLI layer on top succeeds |
| CliLayer.SourceNamesFlags | crates/bitty-config/src/file.rs:775-797 | the CLI source names exactly the flags given, in order and each once |
| CliLayer.CliDoesNotInterfere | crates/bitty-config/src/file.rs:1117-1186 | overridden fields have the CLI value and source, all others the base merge's, with the schema version and touched table names as the only exceptions; no spurious CLI conflict remains and no other is lost |
| CliLayer.OverrideIsReported | crates/bitty-config/src/file.rs:1117-1186 | a flag that replaces a declared value is reported as a conflict with the source it replaced |
| CliLayer.ConflictsNameOnlyFlags | crates/bitty-config/src/file.rs:597-605 | over profile and file layers, flags or none, a conflict names the CLI only for a field it overrides |
| ProfileLayers.RequestedProfileWins | crates/bitty-config/src/file.rs:1074-1081 | over a loaded chain, a field the user file leaves alone has the value and the source of the first profile along `extends` that declares it |
| ProfileLayers.UserFileWins | crates/bitty-config/src/file.rs:1074-1081 | a field the user file declares is the user file's, whatever the profiles say |
| ProfileLayers.UndeclaredKeepsDefault | crates/bitty-config/src/file.rs:1047-1055 | a field neither declares keeps its default |
| ProfileLayers.ChainIsLoaded | crates/bitty-config/src/file.rs:3483-3533 | every walk the loader accepts is such a chain, the requested profile first |
| ProfileLayers.ChainLayersAreLoaded | crates/bitty-config/src/file.rs:3483-3533 | the layers merged are the loader's result in its base-first order |
| UnicodeTables.MergeRanges | scripts/generate-unicode-tables.py:124-138 | the in-place pass computes the coalesced table, or fails naming its first clashing neighbours |
| UnicodeTables.MergeDecides | scripts/generate-unicode-tables.py:124-138 | merging fails exactly on overlapping well-formed input; otherwise the table is sorted, disjoint, without joinable neighbours, and denotes the same class map |
| UnicodeTables.MergeNormalForm | scripts/generate-unicode-tables.py:124-138 | inputs denoting the same map merge to the identical table, whatever their order or splitting |
| UnicodeTables.CanonicalUnique | scripts/generate-unicode-tables.py:124-138 | a class map has one canonical table |
| UnicodeTables.MergeIdempotent | scripts/generate-unicode-tables.py:124-138 | merging a merged table changes nothing |
| UnicodeTables.SelectOfMerged | scripts/generate-unicode-tables.py:141-145 | on a merged table the second merge inside selection is the identity |
| UnicodeTables.CountOfMerge | scripts/generate-unicode-tables.py:148-149 | the scalar count of a merged table is the size of the covered set |
| UnicodeTables.ProbeFinds | scripts/generate-unicode-tables.py:391-400 | the range just before the partition point is the only one that can hold the code point |
| UnicodeTables.EawAgreesWithSource | scripts/generate-unicode-tables.py:391-400 | the emitted lookup returns the class of the input range holding the code point, else N (UAX #11 default) |
| UnicodeTables.InRangesAgreesWithSource | scripts/generate-unicode-tables.py:530-533 | the emitted membership test over a selected table holds exactly for that class's code points |
| ControlStanza.ParseControlFields | scripts/generate-apt-repo.py:105-127 | the line loop computes the specified fields, which always have distinct stripped keys and well-shaped values |
| ControlStanza.FormatPackageStanza | scripts/generate-apt-repo.py:144-191 | the printed stanza is the preferred fields present, the rest in dictionary order, then the five added ones |
| ControlStanza.ParsedIsWellFormed | scripts/generate-apt-repo.py:105-127 | from any state of the parser, what is stored keeps that shape |
| ControlStanza.FieldIsStored | scripts/generate-apt-repo.py:105-127 | whatever came before, a key, a colon and a value, with the continuation lines after them, store the stripped key with the stripped value and those lines; a blank key stores nothing |
| ControlStanza.OneFieldText | scripts/generate-apt-repo.py:105-127 | a one-line text such as `Version:1.0` stores its one field |
| ControlStanza.LineEnds | scripts/generate-apt-repo.py:105-127 | a line ends at the first break character, a carriage return and line feed counting as one |
| ControlStanza.BlankLinesIgnored | scripts/generate-apt-repo.py:105-127 | blank lines are ignored wherever they stand |
| ControlStanza.StanzaRoundTrip | scripts/generate-apt-repo.py:144-191 | printing then reading gives the fields overridden by the added ones exactly when each added string is a value the reader could return |
| ControlStanza.StanzaOrderReturns | scripts/generate-apt-repo.py:144-191 | the keys read back are the printed ones in order of first appearance: the preferred ones present, the rest in dictionary order, then the new added ones |
| ControlStanza.IndexKeepsControlFields | scripts/generate-apt-repo.py:105-191 | for any control text and single-line trimmed additions the round trip is exact, multi-line values intact |

## Left out

- Lua evaluation, module loading, file reads, environment lookups and path probing: the raw fields, the profile
  directory and the layers are inputs; a profile directory is a finite map from name to load result.
- Error texts and line numbers; errors keep their kind and the path or name they blame.
- The shipped default table: any table of parsed, Super-free, distinct chords stands for it.
- `ModKey::parse`, `resolve_leader` and the Leader timeout range check: each is settled by one branch.
- The per-field range checks behind `build_plan_from_data`: an ordered list of element checks stands for them, each
  charged to its own element; checks that span several elements are not modelled in the exactness lemmas, while
  termination, accounting and strictness hold for any plan construction.
- Salvage.LoadWithPolicy: plan construction is an arbitrary function of the raw fields, so `extends`, `selector` and
  module statistics, which it passes through unchanged, do not appear.
- The merge outside the font, window, `appearance.theme` and `schema_version` fields, and the merge class of a conflict.
- `f32` rounding and parsing: sizes and opacities are reals, and the numeric parse and the range checks of types.rs are
  parameters of the merge and CLI layers.
- JSON numbers: `JsonText` allows any run of number characters, a superset of section 6 of RFC 8259.
- Library sorts are modelled as stable insertion sort and `partition_point` as bisection.
- UCD file parsing and Rust source emission: the Unicode model starts from range lists.
- `parse_ar`, hashing, GPG, gzip and directory layout of the APT script: I/O.
- ProfileChain.LoadChain: a profile that loads is a layer with an optional parent; its plan's contents do not matter to
  the walk.
