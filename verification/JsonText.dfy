/** JSON texts by the grammar of RFC 8259 (sections 2, 4, 5 and 7), embedded in
    the gate's bracket grammar: the gate never refuses real JSON. */
module JsonText {
  import opened Wrappers
  import opened Text
  import opened ArgsJson

  /** Section 7: an unescaped scalar, a two-character escape, or \uXXXX. */
  datatype StringUnit =
    | Unescaped(c: char)
    | ShortEscape(c: char)
    | UnicodeEscape(hex: string)

  /** A JSON value together with the insignificant whitespace of section 2.
      Numbers are any text over the characters of section 6's grammar. */
  datatype Json =
    | Word(text: string)
    | Number(text: string)
    | String(body: seq<StringUnit>)
    | Array(blank: string, elements: seq<Element>)
    | Object(blank: string, members: seq<Member>)

  datatype Element = Element(before: string, value: Json, after: string)

  datatype Member = Member(before: string, key: seq<StringUnit>, between: string, element: Element)

  predicate IsWs(c: char) { c == ' ' || c == '\t' || c == '\n' || c == '\r' }

  predicate AllWs(s: string) { forall i :: 0 <= i < |s| ==> IsWs(s[i]) }

  predicate IsHex(c: char) { '0' <= c <= '9' || 'a' <= c <= 'f' || 'A' <= c <= 'F' }

  predicate StringUnitOk(u: StringUnit) {
    match u
    case Unescaped(c) => c as int >= 0x20 && c != '"' && c != '\\'
    case ShortEscape(c) => c in {'"', '\\', '/', 'b', 'f', 'n', 'r', 't'}
    case UnicodeEscape(hex) => |hex| == 4 && IsHex(hex[0]) && IsHex(hex[1]) && IsHex(hex[2]) && IsHex(hex[3])
  }

  predicate StringOk(body: seq<StringUnit>) { body == [] || (StringUnitOk(body[0]) && StringOk(body[1..])) }

  predicate NumberChar(c: char) {
    '0' <= c <= '9' || c == '-' || c == '+' || c == '.' || c == 'e' || c == 'E'
  }

  predicate JsonOk(j: Json)
    decreases j, 1
  {
    match j
    case Word(text) => text == "true" || text == "false" || text == "null"
    case Number(text) => forall i :: 0 <= i < |text| ==> NumberChar(text[i])
    case String(body) => StringOk(body)
    case Array(blank, elements) => AllWs(blank) && ElementsOk(elements)
    case Object(blank, members) => AllWs(blank) && MembersOk(members)
  }

  predicate ElementOk(e: Element)
    decreases e, 2
  {
    AllWs(e.before) && JsonOk(e.value) && AllWs(e.after)
  }

  predicate ElementsOk(es: seq<Element>)
    decreases es, 0
  {
    es == [] || (ElementOk(es[0]) && ElementsOk(es[1..]))
  }

  predicate MembersOk(ms: seq<Member>)
    decreases ms, 0
  {
    ms == [] || (AllWs(ms[0].before) && StringOk(ms[0].key) && AllWs(ms[0].between)
                 && ElementOk(ms[0].element) && MembersOk(ms[1..]))
  }

  function StringUnitText(u: StringUnit): string {
    match u
    case Unescaped(c) => [c]
    case ShortEscape(c) => ['\\', c]
    case UnicodeEscape(hex) => ['\\', 'u'] + hex
  }

  function StringBody(body: seq<StringUnit>): string {
    if body == [] then [] else StringUnitText(body[0]) + StringBody(body[1..])
  }

  function StringText(body: seq<StringUnit>): string { ['"'] + StringBody(body) + ['"'] }

  function TextOf(j: Json): string
    decreases j, 1
  {
    match j
    case Word(text) => text
    case Number(text) => text
    case String(body) => StringText(body)
    case Array(blank, elements) =>
      ['['] + (if elements == [] then blank else ElementsText(elements)) + [']']
    case Object(blank, members) =>
      ['{'] + (if members == [] then blank else MembersText(members)) + ['}']
  }

  function ElementText(e: Element): string
    decreases e, 2
  {
    e.before + TextOf(e.value) + e.after
  }

  function ElementsText(es: seq<Element>): string
    decreases es, 0
  {
    if es == [] then []
    else ElementText(es[0]) + (if |es| == 1 then [] else [','] + ElementsText(es[1..]))
  }

  function MemberText(m: Member): string
    decreases m, 3
  {
    m.before + StringText(m.key) + m.between + [':'] + ElementText(m.element)
  }

  function MembersText(ms: seq<Member>): string
    decreases ms, 0
  {
    if ms == [] then []
    else MemberText(ms[0]) + (if |ms| == 1 then [] else [','] + MembersText(ms[1..]))
  }

  /** How many arrays and objects contain one another. */
  function Nesting(j: Json): nat
    decreases j, 1
  {
    match j
    case Array(_, elements) => 1 + ElementsNesting(elements)
    case Object(_, members) => 1 + MembersNesting(members)
    case _ => 0
  }

  function ElementsNesting(es: seq<Element>): nat
    decreases es, 0
  {
    if es == [] then 0 else Max(Nesting(es[0].value), ElementsNesting(es[1..]))
  }

  function MembersNesting(ms: seq<Member>): nat
    decreases ms, 0
  {
    if ms == [] then 0 else Max(Nesting(ms[0].element.value), MembersNesting(ms[1..]))
  }

  // ---------------------------------------------------------------- embedding

  /** `items` is a bracket-grammar reading of `text`, nested `depth` deep. */
  ghost predicate Reads(items: seq<Item>, text: string, depth: nat) {
    ItemsOk(items) && RenderAll(items) == text && DepthAll(items) == depth
  }

  lemma {:induction false} ReadConcat(a: seq<Item>, s: string, m: nat, b: seq<Item>, t: string, n: nat)
    requires Reads(a, s, m) && Reads(b, t, n)
    ensures Reads(a + b, s + t, Max(m, n))
    decreases |a|
  {
    if a == [] {
      assert a + b == b && s + t == t;
    } else {
      ReadConcat(a[1..], RenderAll(a[1..]), DepthAll(a[1..]), b, t, n);
      assert (a + b)[1..] == a[1..] + b;
      assert s + t == Render(a[0]) + (RenderAll(a[1..]) + t);
    }
  }

  predicate Flat(s: string) {
    forall i :: 0 <= i < |s| ==> ItemOk(Other(s[i]))
  }

  lemma {:induction false} ReadFlat(s: string) returns (items: seq<Item>)
    requires Flat(s)
    ensures Reads(items, s, 0)
  {
    if s == [] {
      items := [];
    } else {
      var rest := ReadFlat(s[1..]);
      items := [Other(s[0])] + rest;
      assert items[1..] == rest && s == [s[0]] + s[1..];
    }
  }

  lemma ReadOne(item: Item)
    requires ItemOk(item)
    ensures Reads([item], Render(item), Depth(item))
  {
    assert [item][1..] == [];
  }

  predicate UnitsOk(units: seq<Unit>) {
    forall i :: 0 <= i < |units| ==> UnitOk(units[i])
  }

  lemma {:induction false} RenderUnitsConcat(a: seq<Unit>, b: seq<Unit>)
    ensures RenderUnits(a + b) == RenderUnits(a) + RenderUnits(b)
    decreases |a|
  {
    if a == [] {
      assert a + b == b;
    } else {
      RenderUnitsConcat(a[1..], b);
      assert (a + b)[1..] == a[1..] + b;
    }
  }

  lemma UnitsOfStringUnit(u: StringUnit) returns (units: seq<Unit>)
    requires StringUnitOk(u)
    ensures UnitsOk(units) && RenderUnits(units) == StringUnitText(u)
  {
    match u
    case Unescaped(c) =>
      units := [Plain(c)];
      assert units[1..] == [];
    case ShortEscape(c) =>
      units := [Escaped(c)];
      assert units[1..] == [];
    case UnicodeEscape(hex) =>
      var digits := [Plain(hex[0]), Plain(hex[1]), Plain(hex[2]), Plain(hex[3])];
      units := [Escaped('u')] + digits;
      assert units[1..] == digits;
      PlainDigits(hex);
  }

  lemma PlainDigits(hex: string)
    requires |hex| == 4
    ensures RenderUnits([Plain(hex[0]), Plain(hex[1]), Plain(hex[2]), Plain(hex[3])]) == hex
  {
    var d := [Plain(hex[0]), Plain(hex[1]), Plain(hex[2]), Plain(hex[3])];
    assert d[1..] == [Plain(hex[1]), Plain(hex[2]), Plain(hex[3])];
    assert d[1..][1..] == [Plain(hex[2]), Plain(hex[3])];
    assert d[1..][1..][1..] == [Plain(hex[3])];
    assert d[1..][1..][1..][1..] == [];
    calc {
      RenderUnits(d);
      [hex[0]] + RenderUnits(d[1..]);
      [hex[0]] + ([hex[1]] + RenderUnits(d[1..][1..]));
      [hex[0]] + ([hex[1]] + ([hex[2]] + RenderUnits(d[1..][1..][1..])));
      hex;
    }
  }

  lemma {:induction false} ReadString(body: seq<StringUnit>) returns (item: Item)
    requires StringOk(body)
    ensures item.Str? && ItemOk(item) && Render(item) == StringText(body)
    ensures RenderUnits(item.body) == StringBody(body)
    decreases |body|
  {
    if body == [] {
      item := Str([]);
    } else {
      var rest := ReadString(body[1..]);
      var units := UnitsOfStringUnit(body[0]);
      RenderUnitsConcat(units, rest.body);
      item := Str(units + rest.body);
    }
  }

  lemma {:induction false} ReadJson(j: Json) returns (items: seq<Item>)
    requires JsonOk(j)
    ensures Reads(items, TextOf(j), Nesting(j))
    ensures j.Array? || j.Object? ==> |items| == 1 && items[0].Group?
    decreases j, 1
  {
    match j
    case Word(text) =>
      items := ReadFlat(text);
    case Number(text) =>
      items := ReadFlat(text);
    case String(body) =>
      var item := ReadString(body);
      ReadOne(item);
      items := [item];
    case Array(blank, elements) =>
      var inner;
      if elements == [] {
        inner := ReadFlat(blank);
      } else {
        inner := ReadElements(elements);
      }
      ReadOne(Group(false, inner));
      items := [Group(false, inner)];
    case Object(blank, members) =>
      var inner;
      if members == [] {
        inner := ReadFlat(blank);
      } else {
        inner := ReadMembers(members);
      }
      ReadOne(Group(true, inner));
      items := [Group(true, inner)];
  }

  lemma {:induction false} ReadElement(e: Element) returns (items: seq<Item>)
    requires ElementOk(e)
    ensures Reads(items, ElementText(e), Nesting(e.value))
    decreases e, 2
  {
    var a := ReadFlat(e.before);
    var b := ReadJson(e.value);
    var c := ReadFlat(e.after);
    ReadConcat(a, e.before, 0, b, TextOf(e.value), Nesting(e.value));
    ReadConcat(a + b, e.before + TextOf(e.value), Nesting(e.value), c, e.after, 0);
    items := a + b + c;
  }

  lemma {:induction false} ReadElements(es: seq<Element>) returns (items: seq<Item>)
    requires ElementsOk(es)
    ensures Reads(items, ElementsText(es), ElementsNesting(es))
    decreases es, 0
  {
    if es == [] {
      items := [];
    } else {
      var first := ReadElement(es[0]);
      var n := Nesting(es[0].value);
      if |es| == 1 {
        items := first;
        assert es[1..] == [];
        assert ElementsText(es) == ElementText(es[0]) + [] == ElementText(es[0]);
      } else {
        var rest := ReadElements(es[1..]);
        ReadOne(Other(','));
        ReadConcat([Other(',')], [','], 0, rest, ElementsText(es[1..]), ElementsNesting(es[1..]));
        ReadConcat(first, ElementText(es[0]), n,
                   [Other(',')] + rest, [','] + ElementsText(es[1..]), ElementsNesting(es[1..]));
        items := first + ([Other(',')] + rest);
      }
    }
  }

  lemma {:induction false} ReadMember(m: Member) returns (items: seq<Item>)
    requires AllWs(m.before) && StringOk(m.key) && AllWs(m.between) && ElementOk(m.element)
    ensures Reads(items, MemberText(m), Nesting(m.element.value))
    decreases m, 3
  {
    var a := ReadFlat(m.before);
    var key := ReadString(m.key);
    var b := ReadFlat(m.between);
    var e := ReadElement(m.element);
    ReadOne(key);
    ReadOne(Other(':'));
    var s := m.before;
    ReadConcat(a, s, 0, [key], StringText(m.key), 0);
    ReadConcat(a + [key], s + StringText(m.key), 0, b, m.between, 0);
    ReadConcat(a + [key] + b, s + StringText(m.key) + m.between, 0, [Other(':')], [':'], 0);
    ReadConcat(a + [key] + b + [Other(':')], s + StringText(m.key) + m.between + [':'], 0,
               e, ElementText(m.element), Nesting(m.element.value));
    items := a + [key] + b + [Other(':')] + e;
  }

  lemma {:induction false} ReadMembers(ms: seq<Member>) returns (items: seq<Item>)
    requires MembersOk(ms)
    ensures Reads(items, MembersText(ms), MembersNesting(ms))
    decreases ms, 0
  {
    if ms == [] {
      items := [];
    } else {
      var first := ReadMember(ms[0]);
      var n := Nesting(ms[0].element.value);
      if |ms| == 1 {
        items := first;
        assert ms[1..] == [];
        assert MembersText(ms) == MemberText(ms[0]) + [] == MemberText(ms[0]);
      } else {
        var rest := ReadMembers(ms[1..]);
        ReadOne(Other(','));
        ReadConcat([Other(',')], [','], 0, rest, MembersText(ms[1..]), MembersNesting(ms[1..]));
        ReadConcat(first, MemberText(ms[0]), n,
                   [Other(',')] + rest, [','] + MembersText(ms[1..]), MembersNesting(ms[1..]));
        items := first + ([Other(',')] + rest);
      }
    }
  }

  /** Every JSON text rooted at an array or object, within the size and depth
      caps, passes the gate. */
  lemma JsonIsNeverRefused(before: string, j: Json, after: string)
    requires AllWs(before) && AllWs(after) && JsonOk(j) && (j.Array? || j.Object?)
    requires ByteLen(before + TextOf(j) + after) <= MAX_JSON_ARGS_BYTES
    requires Nesting(j) <= MAX_JSON_ARGS_DEPTH
    ensures Outcome(before + TextOf(j) + after).Ok?
  {
    var items := ReadJson(j);
    assert items[1..] == [] && items == [items[0]];
    assert RenderAll(items) == Render(items[0]) + [];
    TrimUnique(Rust, before, TextOf(j), after);
    DocumentIsAccepted(before + TextOf(j) + after, items[0]);
  }
}
