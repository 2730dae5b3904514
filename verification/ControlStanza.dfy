/** Debian control stanzas (scripts/generate-apt-repo.py): the field parser and
    the package stanza printer (Debian Policy Manual section 5.1). */
module ControlStanza {
  import opened Wrappers
  import opened Text
  import opened Ordering

  // ---------------------------------------------------------------- Python's str and dict

  /** The characters `str.splitlines` breaks at. */
  predicate IsBreak(c: char) {
    var n := c as int;
    0x0A <= n <= 0x0D || 0x1C <= n <= 0x1E || n == 0x85 || n == 0x2028 || n == 0x2029
  }

  predicate NoBreaks(s: string) { forall i :: 0 <= i < |s| ==> !IsBreak(s[i]) }

  function FirstBreak(s: string): (i: nat)
    ensures i <= |s| && NoBreaks(s[..i]) && (i < |s| ==> IsBreak(s[i]))
  {
    if s == [] || IsBreak(s[0]) then 0 else 1 + FirstBreak(s[1..])
  }

  /** `str.splitlines`: "\r\n" is one break, and a final break adds no line. */
  function SplitLines(s: string): seq<string>
    decreases |s|
  {
    if s == [] then []
    else
      var i := FirstBreak(s);
      if i == |s| then [s]
      else
        var width := if s[i] == '\r' && i + 1 < |s| && s[i + 1] == '\n' then 2 else 1;
        [s[..i]] + SplitLines(s[i + width..])
  }

  function Strip(s: string): string { Trim(Python, s) }

  /** A `dict`: values by key, and the keys in insertion order. */
  datatype Dict = Dict(order: seq<string>, values: map<string, string>)

  const EMPTY_DICT := Dict([], map[])

  function Put(d: Dict, key: string, value: string): Dict {
    Dict(if key in d.values then d.order else d.order + [key], d.values[key := value])
  }

  // ---------------------------------------------------------------- the parser

  /** The parser's variables between two lines. */
  datatype Parsing = Parsing(fields: Dict, key: Option<string>, lines: seq<string>)

  const START := Parsing(EMPTY_DICT, None, [])

  /** Python truth of `current_key`. */
  predicate HasKey(p: Parsing) { p.key.Some? && p.key.value != [] }

  /** Stores the pending field, if there is one. */
  function Commit(p: Parsing): Dict {
    if HasKey(p) && p.lines != [] then Put(p.fields, p.key.value, Join(p.lines, '\n')) else p.fields
  }

  predicate IsContinuation(line: string) { line != [] && (line[0] == ' ' || line[0] == '\t') }

  function KeyOf(line: string): string { Strip(line[..IndexOf(line, ':')]) }

  function FirstValueOf(line: string): string {
    var i := IndexOf(line, ':');
    if i == |line| then [] else Strip(line[i + 1..])
  }

  function StepLine(p: Parsing, line: string): Parsing {
    if line == [] then p
    else if IsContinuation(line) then
      if HasKey(p) then p.(lines := p.lines + [line]) else p
    else Parsing(Commit(p), Some(KeyOf(line)), [FirstValueOf(line)])
  }

  function RunLines(p: Parsing, lines: seq<string>): Parsing
    decreases |lines|
  {
    if lines == [] then p else RunLines(StepLine(p, lines[0]), lines[1..])
  }

  function ParseOf(text: string): Dict { Commit(RunLines(START, SplitLines(text))) }

  /** `parse_control_fields`. */
  method ParseControlFields(text: string) returns (fields: Dict)
    ensures fields == ParseOf(text)
    ensures WellFormed(fields)
  {
    var all := SplitLines(text);
    fields := EMPTY_DICT;
    var currentKey: Option<string> := None;
    var currentValueLines: seq<string> := [];
    LinesHaveNoBreaks(text);
    for i := 0 to |all|
      invariant currentKey.Some? ==> currentValueLines != []
      invariant RunLines(START, all) == RunLines(Parsing(fields, currentKey, currentValueLines), all[i..])
    {
      var line := all[i];
      assert all[i..][0] == line && all[i..][1..] == all[i + 1..];
      if line == [] {
        continue;
      }
      if line[0] == ' ' || line[0] == '\t' {
        if currentKey.Some? && currentKey.value != [] {
          currentValueLines := currentValueLines + [line];
        }
      } else {
        if currentKey.Some? && currentKey.value != [] {
          fields := Put(fields, currentKey.value, Join(currentValueLines, '\n'));
        }
        var colon := IndexOf(line, ':');
        currentKey := Some(Strip(line[..colon]));
        currentValueLines := [if colon < |line| then Strip(line[colon + 1..]) else []];
      }
    }
    if currentKey.Some? && currentKey.value != [] {
      fields := Put(fields, currentKey.value, Join(currentValueLines, '\n'));
    }
    ParsedIsWellFormed(START, all);
  }

  // ---------------------------------------------------------------- what parsing returns

  predicate KeyOk(key: string) {
    key != [] && Trimmed(Python, key) && Lacks(key, ':') && NoBreaks(key)
  }

  predicate FirstOk(first: string) { Trimmed(Python, first) && NoBreaks(first) }

  predicate ContinuationOk(line: string) { IsContinuation(line) && NoBreaks(line) }

  predicate ValueLinesOk(lines: seq<string>) {
    && lines != [] && FirstOk(lines[0])
    && (forall i :: 0 < i < |lines| ==> ContinuationOk(lines[i]))
  }

  /** A first line with nothing to strip, then continuation lines. */
  predicate ValueOk(value: string) { ValueLinesOk(Split(value, '\n')) }

  /** What the parser can return: one value per key, keys and values as above. */
  ghost predicate WellFormed(d: Dict) {
    && Distinct(d.order)
    && (forall k :: k in d.order <==> k in d.values)
    && (forall k :: k in d.values ==> KeyOk(k) && ValueOk(d.values[k]))
  }

  ghost predicate ParsingOk(p: Parsing) {
    && WellFormed(p.fields)
    && (HasKey(p) ==> KeyOk(p.key.value) && ValueLinesOk(p.lines))
  }

  lemma {:induction false} LinesHaveNoBreaks(s: string)
    ensures forall i :: 0 <= i < |SplitLines(s)| ==> NoBreaks(SplitLines(s)[i])
    decreases |s|
  {
    if s == [] {
    } else {
      var i := FirstBreak(s);
      if i < |s| {
        var width := if s[i] == '\r' && i + 1 < |s| && s[i + 1] == '\n' then 2 else 1;
        LinesHaveNoBreaks(s[i + width..]);
      } else {
        assert s[..i] == s;
      }
    }
  }

  lemma StripOk(s: string)
    requires NoBreaks(s)
    ensures FirstOk(Strip(s))
    ensures forall c :: Lacks(s, c) ==> Lacks(Strip(s), c)
  {
    var pre, post := TrimShape(Python, s);
    var m := Strip(s);
    forall i | 0 <= i < |m| ensures m[i] == s[|pre| + i] {
    }
  }

  lemma ValueLinesLackNewline(lines: seq<string>)
    requires ValueLinesOk(lines)
    ensures forall i :: 0 <= i < |lines| ==> Lacks(lines[i], '\n')
    ensures Split(Join(lines, '\n'), '\n') == lines
    ensures ValueOk(Join(lines, '\n'))
  {
    forall i | 0 <= i < |lines| ensures Lacks(lines[i], '\n') {
      assert NoBreaks(lines[i]);
      assert IsBreak('\n');
    }
    SplitOfJoin(lines, '\n');
  }

  lemma PutWellFormed(d: Dict, key: string, value: string)
    requires WellFormed(d) && KeyOk(key) && ValueOk(value)
    ensures WellFormed(Put(d, key, value))
  {
  }

  lemma CommitWellFormed(p: Parsing)
    requires ParsingOk(p)
    ensures WellFormed(Commit(p))
  {
    if HasKey(p) {
      ValueLinesLackNewline(p.lines);
      PutWellFormed(p.fields, p.key.value, Join(p.lines, '\n'));
    }
  }

  lemma StepKeepsOk(p: Parsing, line: string)
    requires ParsingOk(p) && NoBreaks(line)
    ensures ParsingOk(StepLine(p, line))
  {
    if line != [] && !IsContinuation(line) {
      CommitWellFormed(p);
      var i := IndexOf(line, ':');
      StripOk(line[..i]);
      if i < |line| {
        StripOk(line[i + 1..]);
      }
    }
  }

  lemma {:induction false} ParsedIsWellFormed(p: Parsing, lines: seq<string>)
    requires ParsingOk(p) && forall i :: 0 <= i < |lines| ==> NoBreaks(lines[i])
    ensures WellFormed(Commit(RunLines(p, lines)))
    decreases |lines|
  {
    if lines == [] {
      CommitWellFormed(p);
    } else {
      StepKeepsOk(p, lines[0]);
      ParsedIsWellFormed(StepLine(p, lines[0]), lines[1..]);
    }
  }

  // ---------------------------------------------------------------- the printer

  const PREFERRED_ORDER: seq<string> := [
    "Package", "Version", "Architecture", "Maintainer", "Installed-Size", "Depends", "Recommends",
    "Suggests", "Conflicts", "Breaks", "Replaces", "Provides", "Section", "Priority", "Homepage", "Description"]

  datatype Pair = Pair(key: string, value: string)

  function FieldText(p: Pair): string { p.key + ": " + p.value }

  function PreferredPairs(order: seq<string>, values: map<string, string>): seq<Pair> {
    if order == [] then []
    else if order[0] in values then [Pair(order[0], values[order[0]])] + PreferredPairs(order[1..], values)
    else PreferredPairs(order[1..], values)
  }

  function RemainingPairs(order: seq<string>, values: map<string, string>, emitted: seq<string>): seq<Pair>
    requires forall k :: k in order ==> k in values
  {
    if order == [] then []
    else if order[0] in emitted then RemainingPairs(order[1..], values, emitted)
    else [Pair(order[0], values[order[0]])] + RemainingPairs(order[1..], values, emitted)
  }

  /** The five fields the repository index adds. */
  function AddedPairs(relFilename: string, size: nat, md5: string, sha1: string, sha256: string): seq<Pair> {
    [Pair("Filename", relFilename), Pair("Size", Decimal(size)), Pair("SHA256", sha256), Pair("SHA1", sha1),
     Pair("MD5sum", md5)]
  }

  /** The fields of `d`, the preferred ones first. */
  function OwnPairs(preferred: seq<string>, d: Dict): seq<Pair>
    requires forall k :: k in d.order ==> k in d.values
  {
    PreferredPairs(preferred, d.values) + RemainingPairs(d.order, d.values, preferred)
  }

  function StanzaPairs(preferred: seq<string>, d: Dict, added: seq<Pair>): seq<Pair>
    requires forall k :: k in d.order ==> k in d.values
  {
    OwnPairs(preferred, d) + added
  }

  /** The package stanza of `d`. */
  function StanzaText(d: Dict, relFilename: string, size: nat, md5: string, sha1: string, sha256: string): string
    requires forall k :: k in d.order ==> k in d.values
  {
    Join(Map(FieldText, StanzaPairs(PREFERRED_ORDER, d, AddedPairs(relFilename, size, md5, sha1, sha256))), '\n')
  }

  /** `format_package_stanza`. */
  method FormatPackageStanza(d: Dict, relFilename: string, size: nat, md5: string, sha1: string, sha256: string)
    returns (text: string)
    requires forall k :: k in d.order ==> k in d.values
    ensures text == StanzaText(d, relFilename, size, md5, sha1, sha256)
  {
    var lines := FormatFields(PREFERRED_ORDER, d);
    ghost var own := lines;
    lines := lines + [FieldText(Pair("Filename", relFilename))];
    lines := lines + [FieldText(Pair("Size", Decimal(size)))];
    lines := lines + [FieldText(Pair("SHA256", sha256))];
    lines := lines + [FieldText(Pair("SHA1", sha1))];
    lines := lines + [FieldText(Pair("MD5sum", md5))];
    assert lines == own + Map(FieldText, AddedPairs(relFilename, size, md5, sha1, sha256));
    MapConcat(FieldText, OwnPairs(PREFERRED_ORDER, d), AddedPairs(relFilename, size, md5, sha1, sha256));
    text := Join(lines, '\n');
  }

  /** The preferred fields present, then the rest in dict order. */
  method FormatFields(preferred: seq<string>, d: Dict) returns (lines: seq<string>)
    requires forall k :: k in d.order ==> k in d.values
    ensures lines == Map(FieldText, OwnPairs(preferred, d))
  {
    var emitted;
    lines, emitted := FormatPreferred(preferred, d);
    ghost var head := lines;
    for i := 0 to |d.order|
      invariant lines + Map(FieldText, RemainingPairs(d.order[i..], d.values, preferred))
             == head + Map(FieldText, RemainingPairs(d.order, d.values, preferred))
    {
      var key := d.order[i];
      NextRemaining(d.order[i..], d.values, preferred);
      assert d.order[i..][1..] == d.order[i + 1..];
      if key !in emitted {
        lines := lines + [FieldText(Pair(key, d.values[key]))];
      }
    }
    assert d.order[|d.order|..] == [];
    MapConcat(FieldText, PreferredPairs(preferred, d.values), RemainingPairs(d.order, d.values, preferred));
  }

  method FormatPreferred(preferred: seq<string>, d: Dict) returns (lines: seq<string>, emitted: set<string>)
    ensures lines == Map(FieldText, PreferredPairs(preferred, d.values))
    ensures forall k :: k in emitted <==> k in preferred && k in d.values
  {
    lines, emitted := [], {};
    for i := 0 to |preferred|
      invariant lines + Map(FieldText, PreferredPairs(preferred[i..], d.values))
             == Map(FieldText, PreferredPairs(preferred, d.values))
      invariant forall k :: k in emitted <==> k in preferred[..i] && k in d.values
    {
      var key := preferred[i];
      NextPreferred(preferred[i..], d.values);
      assert preferred[i..][1..] == preferred[i + 1..];
      TakeNext(preferred, i);
      if key in d.values {
        lines := lines + [FieldText(Pair(key, d.values[key]))];
        emitted := emitted + {key};
      }
    }
    assert preferred[|preferred|..] == [] && preferred[..|preferred|] == preferred;
  }

  lemma NextPreferred(order: seq<string>, values: map<string, string>)
    requires order != []
    ensures Map(FieldText, PreferredPairs(order, values))
         == (if order[0] in values then [FieldText(Pair(order[0], values[order[0]]))] else [])
            + Map(FieldText, PreferredPairs(order[1..], values))
  {
    if order[0] in values {
      MapCons(FieldText, Pair(order[0], values[order[0]]), PreferredPairs(order[1..], values));
    }
  }

  lemma NextRemaining(order: seq<string>, values: map<string, string>, emitted: seq<string>)
    requires order != [] && forall k :: k in order ==> k in values
    ensures Map(FieldText, RemainingPairs(order, values, emitted))
         == (if order[0] in emitted then [] else [FieldText(Pair(order[0], values[order[0]]))])
            + Map(FieldText, RemainingPairs(order[1..], values, emitted))
  {
    if order[0] !in emitted {
      MapCons(FieldText, Pair(order[0], values[order[0]]), RemainingPairs(order[1..], values, emitted));
    }
  }

  // ---------------------------------------------------------------- round trip

  predicate PairOk(p: Pair) { KeyOk(p.key) && ValueOk(p.value) }

  /** The physical lines of one printed field. */
  function FieldLines(p: Pair): seq<string> {
    var lines := Split(p.value, '\n');
    [p.key + ": " + lines[0]] + lines[1..]
  }

  lemma FieldTextIsLines(p: Pair)
    ensures FieldText(p) == Join(FieldLines(p), '\n')
  {
    var lines := Split(p.value, '\n');
    JoinOfSplit(p.value, '\n');
    if |lines| > 1 {
      assert FieldLines(p)[1..] == lines[1..];
    }
  }

  lemma KeyLine(p: Pair)
    requires PairOk(p)
    ensures var line := FieldLines(p)[0];
            && line != [] && !IsContinuation(line)
            && KeyOf(line) == p.key && FirstValueOf(line) == Split(p.value, '\n')[0]
  {
    var first := Split(p.value, '\n')[0];
    var line := p.key + ": " + first;
    assert line[0] == p.key[0];
    assert IsSpace(Python, ' ') && IsSpace(Python, '\t');
    IndexOfIs(line, ':', |p.key|);
    assert line[..|p.key|] == p.key;
    TrimOfTrimmed(Python, p.key);
    assert line[|p.key| + 1..] == " " + first + [];
    TrimPadded(Python, " ", first, []);
    TrimOfTrimmed(Python, first);
  }

  lemma {:induction false} RunContinuations(p: Parsing, lines: seq<string>)
    requires HasKey(p) && forall i :: 0 <= i < |lines| ==> IsContinuation(lines[i])
    ensures RunLines(p, lines) == p.(lines := p.lines + lines)
    decreases |lines|
  {
    if lines != [] {
      RunContinuations(StepLine(p, lines[0]), lines[1..]);
      assert p.lines + [lines[0]] + lines[1..] == p.lines + lines;
    } else {
      assert p.lines + lines == p.lines;
    }
  }

  /** Reading one printed field stores the field before it and leaves this one
      pending. */
  lemma RunField(p: Parsing, f: Pair)
    requires PairOk(f)
    ensures RunLines(p, FieldLines(f))
         == Parsing(Commit(p), Some(f.key), Split(f.value, '\n'))
  {
    var lines := Split(f.value, '\n');
    KeyLine(f);
    assert FieldLines(f)[1..] == lines[1..];
    RunContinuations(StepLine(p, FieldLines(f)[0]), lines[1..]);
    assert [lines[0]] + lines[1..] == lines;
  }

  lemma {:induction false} RunLinesConcat(p: Parsing, a: seq<string>, b: seq<string>)
    ensures RunLines(p, a + b) == RunLines(RunLines(p, a), b)
    decreases |a|
  {
    if a == [] {
      assert a + b == b;
    } else {
      assert (a + b)[1..] == a[1..] + b;
      RunLinesConcat(StepLine(p, a[0]), a[1..], b);
    }
  }

  function AllLines(pairs: seq<Pair>): seq<string> {
    if pairs == [] then [] else FieldLines(pairs[0]) + AllLines(pairs[1..])
  }

  function PutAll(d: Dict, pairs: seq<Pair>): Dict
    decreases |pairs|
  {
    if pairs == [] then d else PutAll(Put(d, pairs[0].key, pairs[0].value), pairs[1..])
  }

  lemma {:induction false} RunAllFields(p: Parsing, pairs: seq<Pair>)
    requires forall i :: 0 <= i < |pairs| ==> PairOk(pairs[i])
    ensures Commit(RunLines(p, AllLines(pairs))) == PutAll(Commit(p), pairs)
    decreases |pairs|
  {
    if pairs == [] {
    } else {
      RunLinesConcat(p, FieldLines(pairs[0]), AllLines(pairs[1..]));
      RunField(p, pairs[0]);
      JoinOfSplit(pairs[0].value, '\n');
      RunAllFields(RunLines(p, FieldLines(pairs[0])), pairs[1..]);
    }
  }

  lemma {:induction false} StanzaIsLines(pairs: seq<Pair>)
    requires pairs != []
    ensures AllLines(pairs) != []
    ensures Join(Map(FieldText, pairs), '\n') == Join(AllLines(pairs), '\n')
    decreases |pairs|
  {
    var first, rest := pairs[0], pairs[1..];
    FieldTextIsLines(first);
    MapCons(FieldText, first, rest);
    assert pairs == [first] + rest;
    if rest == [] {
      assert AllLines(pairs) == FieldLines(first);
    } else {
      StanzaIsLines(rest);
      JoinConcat(FieldLines(first), AllLines(rest), '\n');
      assert Map(FieldText, pairs)[1..] == Map(FieldText, rest);
    }
  }

  /** Lines without breaks of their own come back from joining and splitting. */
  lemma {:induction false} SplitLinesOfJoin(lines: seq<string>)
    requires lines != [] && forall i :: 0 <= i < |lines| ==> lines[i] != [] && NoBreaks(lines[i])
    ensures SplitLines(Join(lines, '\n')) == lines
    decreases |lines|
  {
    var s := Join(lines, '\n');
    if |lines| == 1 {
      FirstBreakIs(s, |s|);
    } else {
      FirstBreakIs(s, |lines[0]|);
      assert s[..|lines[0]|] == lines[0] && s[|lines[0]| + 1..] == Join(lines[1..], '\n');
      SplitLinesOfJoin(lines[1..]);
      assert lines == [lines[0]] + lines[1..];
    }
  }

  lemma {:induction false} FirstBreakIs(s: string, i: nat)
    requires i <= |s| && NoBreaks(s[..i]) && (i < |s| ==> IsBreak(s[i]))
    ensures FirstBreak(s) == i
  {
    if i > 0 {
      assert s[..i][0] == s[0] && s[1..][..i - 1] == s[..i][1..];
      FirstBreakIs(s[1..], i - 1);
    }
  }

  lemma {:induction false} AllLinesOk(pairs: seq<Pair>)
    requires forall i :: 0 <= i < |pairs| ==> PairOk(pairs[i])
    ensures forall i :: 0 <= i < |AllLines(pairs)| ==> AllLines(pairs)[i] != [] && NoBreaks(AllLines(pairs)[i])
    decreases |pairs|
  {
    if pairs == [] {
    } else {
      AllLinesOk(pairs[1..]);
      FieldLinesOk(pairs[0]);
    }
  }

  lemma FieldLinesOk(p: Pair)
    requires PairOk(p)
    ensures forall i :: 0 <= i < |FieldLines(p)| ==> FieldLines(p)[i] != [] && NoBreaks(FieldLines(p)[i])
  {
    var lines := Split(p.value, '\n');
    var line := p.key + ": " + lines[0];
    forall i | 0 <= i < |line| ensures !IsBreak(line[i]) {
      if |p.key| + 2 <= i {
        assert line[i] == lines[0][i - |p.key| - 2];
      }
    }
    forall i | 0 < i < |FieldLines(p)| ensures FieldLines(p)[i] == lines[i] {
    }
  }

  /** Reading a printed stanza stores its fields in the order printed. */
  lemma ParseOfPrinted(pairs: seq<Pair>)
    requires pairs != [] && forall i :: 0 <= i < |pairs| ==> PairOk(pairs[i])
    ensures ParseOf(Join(Map(FieldText, pairs), '\n')) == PutAll(EMPTY_DICT, pairs)
  {
    StanzaIsLines(pairs);
    AllLinesOk(pairs);
    SplitLinesOfJoin(AllLines(pairs));
    RunAllFields(START, pairs);
  }

  lemma {:induction false} PutAllConcat(d: Dict, a: seq<Pair>, b: seq<Pair>)
    ensures PutAll(d, a + b) == PutAll(PutAll(d, a), b)
    decreases |a|
  {
    if a == [] {
      assert a + b == b;
    } else {
      assert (a + b)[1..] == a[1..] + b;
      PutAllConcat(Put(d, a[0].key, a[0].value), a[1..], b);
    }
  }

  /** Every listed pair is a field of `values`. */
  predicate DrawnFrom(pairs: seq<Pair>, values: map<string, string>) {
    forall i :: 0 <= i < |pairs| ==> pairs[i].key in values && pairs[i].value == values[pairs[i].key]
  }

  predicate Lists(pairs: seq<Pair>, key: string) {
    exists i :: 0 <= i < |pairs| && pairs[i].key == key
  }

  lemma {:induction false} PutAllDrawn(d: Dict, pairs: seq<Pair>, values: map<string, string>)
    requires DrawnFrom(pairs, values)
    requires forall k :: k in d.values ==> k in values && d.values[k] == values[k]
    ensures forall k :: k in PutAll(d, pairs).values <==> k in d.values || Lists(pairs, k)
    ensures forall k :: k in PutAll(d, pairs).values ==> k in values && PutAll(d, pairs).values[k] == values[k]
    decreases |pairs|
  {
    if pairs == [] {
    } else {
      var next := Put(d, pairs[0].key, pairs[0].value);
      PutAllDrawn(next, pairs[1..], values);
      forall k ensures Lists(pairs, k) <==> k == pairs[0].key || Lists(pairs[1..], k) {
        if Lists(pairs[1..], k) {
          var i :| 0 <= i < |pairs[1..]| && pairs[1..][i].key == k;
          assert pairs[i + 1].key == k;
        }
        if Lists(pairs, k) && k != pairs[0].key {
          var i :| 0 <= i < |pairs| && pairs[i].key == k;
          assert pairs[1..][i - 1].key == k;
        }
      }
    }
  }

  lemma {:induction false} PreferredDrawn(order: seq<string>, values: map<string, string>)
    ensures DrawnFrom(PreferredPairs(order, values), values)
    ensures forall k :: Lists(PreferredPairs(order, values), k) <==> k in order && k in values
  {
    if order == [] {
      assert PreferredPairs(order, values) == [];
    } else {
      var rest := PreferredPairs(order[1..], values);
      PreferredDrawn(order[1..], values);
      KeyInFront(order);
      if order[0] in values {
        DrawnCons(Pair(order[0], values[order[0]]), rest, values);
      }
    }
  }

  lemma {:induction false} RemainingDrawn(order: seq<string>, values: map<string, string>, emitted: seq<string>)
    requires forall k :: k in order ==> k in values
    ensures DrawnFrom(RemainingPairs(order, values, emitted), values)
    ensures forall k :: Lists(RemainingPairs(order, values, emitted), k) <==> k in order && k !in emitted
  {
    if order == [] {
      assert RemainingPairs(order, values, emitted) == [];
    } else {
      var rest := RemainingPairs(order[1..], values, emitted);
      RemainingDrawn(order[1..], values, emitted);
      KeyInFront(order);
      if order[0] !in emitted {
        DrawnCons(Pair(order[0], values[order[0]]), rest, values);
      }
    }
  }

  lemma KeyInFront(order: seq<string>)
    requires order != []
    ensures forall k :: k in order <==> k == order[0] || k in order[1..]
  {
    assert order == [order[0]] + order[1..];
  }

  lemma DrawnCons(p: Pair, rest: seq<Pair>, values: map<string, string>)
    requires DrawnFrom(rest, values) && p.key in values && p.value == values[p.key]
    ensures DrawnFrom([p] + rest, values)
    ensures forall k :: Lists([p] + rest, k) <==> p.key == k || Lists(rest, k)
  {
    ListsCons(rest);
  }

  lemma ListsCons(rest: seq<Pair>)
    ensures forall p: Pair, k :: Lists([p] + rest, k) <==> p.key == k || Lists(rest, k)
  {
    forall p: Pair, k ensures Lists([p] + rest, k) <==> p.key == k || Lists(rest, k) {
      var all := [p] + rest;
      if p.key == k {
        assert all[0].key == k;
      }
      if Lists(rest, k) {
        var i :| 0 <= i < |rest| && rest[i].key == k;
        assert all[i + 1].key == k;
      }
      if Lists(all, k) && p.key != k {
        var i :| 0 <= i < |all| && all[i].key == k;
        assert rest[i - 1].key == k;
      }
    }
  }

  /** The fields overridden by the five added ones. */
  function Overridden(values: map<string, string>, relFilename: string, size: nat, md5: string, sha1: string,
                      sha256: string): map<string, string>
  {
    values["Filename" := relFilename]["Size" := Decimal(size)]["SHA256" := sha256]["SHA1" := sha1]["MD5sum" := md5]
  }

  lemma AddedKeysOk()
    ensures KeyOk("Filename") && KeyOk("Size") && KeyOk("SHA256") && KeyOk("SHA1") && KeyOk("MD5sum")
  {
  }

  lemma SingleLineOk(value: string)
    requires FirstOk(value)
    ensures ValueOk(value)
  {
    ValueLinesLackNewline([value]);
  }

  /** The size field is always one trimmed line. */
  lemma SizeOk(size: nat)
    ensures ValueOk(Decimal(size))
  {
    SingleLineOk(Decimal(size));
  }

  lemma DrawnOk(pairs: seq<Pair>, d: Dict)
    requires WellFormed(d) && DrawnFrom(pairs, d.values)
    ensures forall i :: 0 <= i < |pairs| ==> PairOk(pairs[i])
  {
  }

  lemma OwnPairsOk(preferred: seq<string>, d: Dict)
    requires WellFormed(d)
    ensures forall i :: 0 <= i < |OwnPairs(preferred, d)| ==> PairOk(OwnPairs(preferred, d)[i])
  {
    PreferredDrawn(preferred, d.values);
    RemainingDrawn(d.order, d.values, preferred);
    DrawnOk(PreferredPairs(preferred, d.values), d);
    DrawnOk(RemainingPairs(d.order, d.values, preferred), d);
  }

  /** Storing pairs drawn from `values`, every key among them, gives `values`. */
  lemma DrawnFieldsReturn(a: seq<Pair>, b: seq<Pair>, values: map<string, string>)
    requires DrawnFrom(a, values) && DrawnFrom(b, values)
    requires forall k :: k in values ==> Lists(a, k) || Lists(b, k)
    ensures PutAll(EMPTY_DICT, a + b).values == values
  {
    PutAllDrawn(EMPTY_DICT, a, values);
    PutAllDrawn(PutAll(EMPTY_DICT, a), b, values);
    PutAllConcat(EMPTY_DICT, a, b);
  }

  /** The control fields themselves come back exactly, whatever their order. */
  lemma OwnFieldsReturn(preferred: seq<string>, d: Dict)
    requires WellFormed(d)
    ensures PutAll(EMPTY_DICT, OwnPairs(preferred, d)).values == d.values
  {
    PreferredDrawn(preferred, d.values);
    RemainingDrawn(d.order, d.values, preferred);
    DrawnFieldsReturn(PreferredPairs(preferred, d.values), RemainingPairs(d.order, d.values, preferred), d.values);
  }

  lemma FiveReturn(preferred: seq<string>, d: Dict, five: seq<Pair>)
    requires WellFormed(d) && |five| == 5 && forall i :: 0 <= i < 5 ==> PairOk(five[i])
    ensures ParseOf(Join(Map(FieldText, StanzaPairs(preferred, d, five)), '\n')).values
         == d.values[five[0].key := five[0].value][five[1].key := five[1].value][five[2].key := five[2].value]
                    [five[3].key := five[3].value][five[4].key := five[4].value]
  {
    var own := OwnPairs(preferred, d);
    OwnPairsOk(preferred, d);
    OwnFieldsReturn(preferred, d);
    ParseOfPrinted(own + five);
    PutAllConcat(EMPTY_DICT, own, five);
    PutFive(PutAll(EMPTY_DICT, own), five);
  }

  lemma RoundTripWhenOk(d: Dict, relFilename: string, size: nat, md5: string, sha1: string, sha256: string)
    requires WellFormed(d)
    requires ValueOk(relFilename) && ValueOk(md5) && ValueOk(sha1) && ValueOk(sha256)
    ensures ParseOf(StanzaText(d, relFilename, size, md5, sha1, sha256)).values
         == Overridden(d.values, relFilename, size, md5, sha1, sha256)
  {
    AddedKeysOk();
    SizeOk(size);
    FiveReturn(PREFERRED_ORDER, d, AddedPairs(relFilename, size, md5, sha1, sha256));
  }

  lemma PutNext(d: Dict, pairs: seq<Pair>, i: nat)
    requires i < |pairs|
    ensures PutAll(d, pairs[i..]) == PutAll(Put(d, pairs[i].key, pairs[i].value), pairs[i + 1..])
  {
    assert pairs[i..][1..] == pairs[i + 1..];
  }

  lemma PutFive(d: Dict, five: seq<Pair>)
    requires |five| == 5
    ensures PutAll(d, five).values
         == d.values[five[0].key := five[0].value][five[1].key := five[1].value][five[2].key := five[2].value]
                    [five[3].key := five[3].value][five[4].key := five[4].value]
  {
    var d1 := Put(d, five[0].key, five[0].value);
    var d2 := Put(d1, five[1].key, five[1].value);
    var d3 := Put(d2, five[2].key, five[2].value);
    var d4 := Put(d3, five[3].key, five[3].value);
    assert five[0..] == five;
    PutNext(d, five, 0);
    PutNext(d1, five, 1);
    PutNext(d2, five, 2);
    PutNext(d3, five, 3);
    PutNext(d4, five, 4);
  }

  /** Printing a package stanza and reading it back gives the control fields
      overridden by the added ones exactly when each added string is something
      the reader could have returned; a single trimmed line always is. */
  lemma StanzaRoundTrip(d: Dict, relFilename: string, size: nat, md5: string, sha1: string, sha256: string)
    requires WellFormed(d)
    ensures ParseOf(StanzaText(d, relFilename, size, md5, sha1, sha256)).values
         == Overridden(d.values, relFilename, size, md5, sha1, sha256)
       <==> ValueOk(relFilename) && ValueOk(md5) && ValueOk(sha1) && ValueOk(sha256)
  {
    var fields := ParseOf(StanzaText(d, relFilename, size, md5, sha1, sha256));
    ParseOfIsWellFormed(StanzaText(d, relFilename, size, md5, sha1, sha256));
    if fields.values == Overridden(d.values, relFilename, size, md5, sha1, sha256) {
      OverriddenValues(fields.values, d.values, relFilename, size, md5, sha1, sha256);
    }
    if ValueOk(relFilename) && ValueOk(md5) && ValueOk(sha1) && ValueOk(sha256) {
      RoundTripWhenOk(d, relFilename, size, md5, sha1, sha256);
    }
  }

  lemma ParseOfIsWellFormed(text: string)
    ensures WellFormed(ParseOf(text))
  {
    LinesHaveNoBreaks(text);
    ParsedIsWellFormed(START, SplitLines(text));
  }

  lemma OverriddenValues(r: map<string, string>, values: map<string, string>, relFilename: string, size: nat,
                         md5: string, sha1: string, sha256: string)
    requires r == Overridden(values, relFilename, size, md5, sha1, sha256)
    requires forall k :: k in r ==> ValueOk(r[k])
    ensures ValueOk(relFilename) && ValueOk(md5) && ValueOk(sha1) && ValueOk(sha256)
  {
    assert r["Filename"] == relFilename && r["SHA256"] == sha256 && r["SHA1"] == sha1 && r["MD5sum"] == md5;
  }

  /** The reader's own output, printed with single-line trimmed additions,
      reads back as itself overridden, multi-line values intact. */
  lemma IndexKeepsControlFields(control: string, relFilename: string, size: nat, md5: string, sha1: string,
                                sha256: string)
    requires FirstOk(relFilename) && FirstOk(md5) && FirstOk(sha1) && FirstOk(sha256)
    ensures WellFormed(ParseOf(control))
    ensures ParseOf(StanzaText(ParseOf(control), relFilename, size, md5, sha1, sha256)).values
         == Overridden(ParseOf(control).values, relFilename, size, md5, sha1, sha256)
  {
    ParseOfIsWellFormed(control);
    SingleLineOk(relFilename);
    SingleLineOk(md5);
    SingleLineOk(sha1);
    SingleLineOk(sha256);
    StanzaRoundTrip(ParseOf(control), relFilename, size, md5, sha1, sha256);
  }

  // ---------------------------------------------------------------- key order

  /** Keys in order of first appearance, after those already there. */
  function AppendNew(order: seq<string>, keys: seq<string>): seq<string>
    decreases |keys|
  {
    if keys == [] then order
    else AppendNew(if keys[0] in order then order else order + [keys[0]], keys[1..])
  }

  function KeyIn(p: Pair): string { p.key }

  lemma {:induction false} PutAllOrders(d: Dict, pairs: seq<Pair>)
    requires forall k :: k in d.order <==> k in d.values
    ensures PutAll(d, pairs).order == AppendNew(d.order, Map(KeyIn, pairs))
    decreases |pairs|
  {
    if pairs == [] {
    } else {
      PutAllOrders(Put(d, pairs[0].key, pairs[0].value), pairs[1..]);
      assert Map(KeyIn, pairs)[1..] == Map(KeyIn, pairs[1..]);
    }
  }

  function PresentIn(keys: seq<string>, values: map<string, string>): seq<string> {
    if keys == [] then []
    else if keys[0] in values then [keys[0]] + PresentIn(keys[1..], values)
    else PresentIn(keys[1..], values)
  }

  function Without(keys: seq<string>, gone: seq<string>): seq<string> {
    if keys == [] then []
    else if keys[0] in gone then Without(keys[1..], gone)
    else [keys[0]] + Without(keys[1..], gone)
  }

  lemma {:induction false} PreferredKeys(order: seq<string>, values: map<string, string>)
    ensures Map(KeyIn, PreferredPairs(order, values)) == PresentIn(order, values)
  {
    if order == [] {
    } else {
      PreferredKeys(order[1..], values);
      if order[0] in values {
        MapCons(KeyIn, Pair(order[0], values[order[0]]), PreferredPairs(order[1..], values));
      }
    }
  }

  lemma {:induction false} RemainingKeys(order: seq<string>, values: map<string, string>, emitted: seq<string>)
    requires forall k :: k in order ==> k in values
    ensures Map(KeyIn, RemainingPairs(order, values, emitted)) == Without(order, emitted)
  {
    if order == [] {
    } else {
      RemainingKeys(order[1..], values, emitted);
      if order[0] !in emitted {
        MapCons(KeyIn, Pair(order[0], values[order[0]]), RemainingPairs(order[1..], values, emitted));
      }
    }
  }

  /** The keys of a stanza as printed: the preferred ones present, the others in
      dictionary order, then the added ones. */
  function PrintedKeys(preferred: seq<string>, d: Dict, added: seq<string>): seq<string> {
    PresentIn(preferred, d.values) + Without(d.order, preferred) + added
  }

  const ADDED_KEYS: seq<string> := ["Filename", "Size", "SHA256", "SHA1", "MD5sum"]

  lemma StanzaKeys(preferred: seq<string>, d: Dict, added: seq<Pair>)
    requires forall k :: k in d.order ==> k in d.values
    ensures Map(KeyIn, StanzaPairs(preferred, d, added)) == PrintedKeys(preferred, d, Map(KeyIn, added))
  {
    var a, b := PreferredPairs(preferred, d.values), RemainingPairs(d.order, d.values, preferred);
    PreferredKeys(preferred, d.values);
    RemainingKeys(d.order, d.values, preferred);
    MapConcat(KeyIn, a, b);
    MapConcat(KeyIn, a + b, added);
  }

  lemma PairsReturnInOrder(preferred: seq<string>, d: Dict, added: seq<Pair>)
    requires WellFormed(d) && added != [] && forall i :: 0 <= i < |added| ==> PairOk(added[i])
    ensures ParseOf(Join(Map(FieldText, StanzaPairs(preferred, d, added)), '\n')).order
         == AppendNew([], PrintedKeys(preferred, d, Map(KeyIn, added)))
  {
    OwnPairsOk(preferred, d);
    ParseOfPrinted(OwnPairs(preferred, d) + added);
    PutAllOrders(EMPTY_DICT, StanzaPairs(preferred, d, added));
    StanzaKeys(preferred, d, added);
  }

  lemma AddedKeysAre(relFilename: string, size: nat, md5: string, sha1: string, sha256: string)
    ensures Map(KeyIn, AddedPairs(relFilename, size, md5, sha1, sha256)) == ADDED_KEYS
  {
  }

  lemma AddedPairsOk(relFilename: string, size: nat, md5: string, sha1: string, sha256: string)
    requires ValueOk(relFilename) && ValueOk(md5) && ValueOk(sha1) && ValueOk(sha256)
    ensures var added := AddedPairs(relFilename, size, md5, sha1, sha256);
            added != [] && forall i :: 0 <= i < |added| ==> PairOk(added[i])
  {
    AddedKeysOk();
    SizeOk(size);
  }

  /** Reading a stanza back also gives its keys in the order printed, each where
      it first stands. */
  lemma StanzaOrderReturns(d: Dict, relFilename: string, size: nat, md5: string, sha1: string, sha256: string)
    requires WellFormed(d)
    requires ValueOk(relFilename) && ValueOk(md5) && ValueOk(sha1) && ValueOk(sha256)
    ensures ParseOf(StanzaText(d, relFilename, size, md5, sha1, sha256)).order
         == AppendNew([], PrintedKeys(PREFERRED_ORDER, d, ADDED_KEYS))
  {
    AddedPairsOk(relFilename, size, md5, sha1, sha256);
    AddedKeysAre(relFilename, size, md5, sha1, sha256);
    PairsReturnInOrder(PREFERRED_ORDER, d, AddedPairs(relFilename, size, md5, sha1, sha256));
  }

  // ---------------------------------------------------------------- reading any control text

  /** A line without a break ends at the next one, "\r\n" counting once. */
  lemma LineEnds(line: string, brk: string, rest: string)
    requires NoBreaks(line)
    requires brk == "\r\n" || (|brk| == 1 && IsBreak(brk[0]) && !(brk[0] == '\r' && rest != [] && rest[0] == '\n'))
    ensures SplitLines(line + brk + rest) == [line] + SplitLines(rest)
  {
    var s, i := line + brk + rest, |line|;
    assert s[i] == brk[0];
    FirstBreakIs(s, i);
    assert s[..i] == line && s[i + |brk|..] == rest;
    assert i + 1 < |s| ==> s[i + 1] == (brk + rest)[1];
  }

  /** A line that starts a field: a key, a colon and a value, whatever blanks
      surround the last two; without a colon the value is empty. */
  ghost predicate FieldLine(line: string, key: string, value: string) {
    && line != [] && !IsContinuation(line) && Lacks(key, ':')
    && (line == key + ":" + value || (line == key && value == []))
  }

  lemma FieldLineReads(line: string, key: string, value: string)
    requires FieldLine(line, key, value)
    ensures KeyOf(line) == Strip(key) && FirstValueOf(line) == Strip(value)
  {
    IndexOfIs(line, ':', |key|);
    assert line[..|key|] == key;
    if line != key {
      assert line[|key| + 1..] == value;
    }
  }

  /** Whatever was read before, a field line with the continuation lines after it
      stores the key without its blanks, and the value without its blanks followed
      by the continuation lines as they are; a blank key stores nothing. */
  lemma FieldIsStored(before: seq<string>, line: string, key: string, value: string, more: seq<string>)
    requires FieldLine(line, key, value) && forall i :: 0 <= i < |more| ==> IsContinuation(more[i])
    ensures var earlier, later := RunLines(START, before), RunLines(START, before + ([line] + more));
            Commit(later) == if Strip(key) == [] then Commit(earlier)
                             else Put(Commit(earlier), Strip(key), Join([Strip(value)] + more, '\n'))
  {
    var p := RunLines(START, before);
    RunLinesConcat(START, before, [line] + more);
    FieldLineReads(line, key, value);
    var q := StepLine(p, line);
    assert ([line] + more)[1..] == more;
    if Strip(key) == [] {
      RunIgnored(q, more);
    } else {
      RunContinuations(q, more);
    }
  }

  /** Continuation lines without a field before them are ignored. */
  lemma {:induction false} RunIgnored(p: Parsing, lines: seq<string>)
    requires !HasKey(p) && forall i :: 0 <= i < |lines| ==> IsContinuation(lines[i])
    ensures RunLines(p, lines) == p
    decreases |lines|
  {
    if lines == [] {
    } else {
      RunIgnored(p, lines[1..]);
    }
  }

  /** Blank lines are ignored wherever they stand. */
  lemma BlankLinesIgnored(before: seq<string>, after: seq<string>)
    ensures RunLines(START, before + ([[]] + after)) == RunLines(START, before + after)
  {
    var p := RunLines(START, before);
    RunLinesConcat(START, before, [[]] + after);
    RunLinesConcat(START, before, after);
    assert ([[]] + after)[1..] == after;
  }

  /** A one-line text stores its one field, as in `Version:1.0`. */
  lemma OneFieldText(line: string, key: string, value: string)
    requires FieldLine(line, key, value) && NoBreaks(line) && Strip(key) != []
    ensures ParseOf(line) == Dict([Strip(key)], map[Strip(key) := Strip(value)])
  {
    FieldIsStored([], line, key, value, []);
    assert [] + ([line] + []) == [line];
    assert FirstBreak(line) == |line|;
    assert [Strip(value)] + [] == [Strip(value)];
  }
}
