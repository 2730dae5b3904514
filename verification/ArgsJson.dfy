/** The structural gate on raw JSON argument documents
    (crates/bitty-config/src/args_json.rs): a one-pass scanner over the UTF-8
    bytes, and the recursive bracket grammar it decides. */
module ArgsJson {
  import opened Wrappers
  import opened Text

  const MAX_JSON_ARGS_BYTES: nat := 65536
  const MAX_JSON_ARGS_DEPTH: nat := 32

  // ---------------------------------------------------------------- UTF-8

  type Byte = b: int | 0 <= b < 256

  function Utf8(c: char): (bs: seq<Byte>)
    ensures |bs| == Utf8Len(c)
    ensures c as int < 0x80 ==> bs == [c as int]
    ensures c as int >= 0x80 ==> forall i :: 0 <= i < |bs| ==> bs[i] >= 0x80
  {
    var n := c as int;
    if n < 0x80 then [n]
    else if n < 0x800 then [0xC0 + n / 0x40, 0x80 + n % 0x40]
    else if n < 0x10000 then [0xE0 + n / 0x1000, 0x80 + n / 0x40 % 0x40, 0x80 + n % 0x40]
    else [0xF0 + n / 0x40000, 0x80 + n / 0x1000 % 0x40, 0x80 + n / 0x40 % 0x40, 0x80 + n % 0x40]
  }

  /** `str::as_bytes`. */
  function Bytes(s: string): seq<Byte> {
    if s == [] then [] else Utf8(s[0]) + Bytes(s[1..])
  }

  /** `n` is a byte offset at which a scalar of `s` starts or `s` ends. */
  predicate IsBoundary(s: string, n: int) {
    n == 0 || (s != [] && n >= Utf8Len(s[0]) && IsBoundary(s[1..], n - Utf8Len(s[0])))
  }

  /** `&s[n..]`; off a boundary the source would panic. */
  function SliceFrom(s: string, n: int): string
    requires IsBoundary(s, n)
  {
    if n == 0 then s else SliceFrom(s[1..], n - Utf8Len(s[0]))
  }

  // ---------------------------------------------------------------- the scanner

  datatype Reason = TooLarge | Empty | BadRoot | Unbalanced | TooDeep | Unterminated | TrailingBytes

  /** The scanner's variables between two bytes. */
  datatype Scan = Scan(inString: bool, escaped: bool, depth: nat, stack: seq<Byte>, rootEnd: Option<nat>)

  const START := Scan(false, false, 0, [], None)

  const QUOTE: Byte := 0x22
  const BACKSLASH: Byte := 0x5C
  const OPEN_BRACKET: Byte := 0x5B
  const CLOSE_BRACKET: Byte := 0x5D
  const OPEN_BRACE: Byte := 0x7B
  const CLOSE_BRACE: Byte := 0x7D

  function SaturatingPred(n: nat): nat { if n == 0 then 0 else n - 1 }

  function StepByte(st: Scan, index: nat, b: Byte): Result<Scan, Reason> {
    if st.inString then
      Ok(if st.escaped then st.(escaped := false)
         else if b == BACKSLASH then st.(escaped := true)
         else if b == QUOTE then st.(inString := false)
         else st)
    else if b == QUOTE then CapDepth(st.(inString := true))
    else if b == OPEN_BRACE then CapDepth(st.(stack := st.stack + [CLOSE_BRACE], depth := st.depth + 1))
    else if b == OPEN_BRACKET then CapDepth(st.(stack := st.stack + [CLOSE_BRACKET], depth := st.depth + 1))
    else if b == CLOSE_BRACE || b == CLOSE_BRACKET then
      if st.stack == [] || st.stack[|st.stack| - 1] != b then Err(Unbalanced)
      else
        var d := SaturatingPred(st.depth);
        CapDepth(st.(stack := st.stack[..|st.stack| - 1], depth := d,
                     rootEnd := if d == 0 && st.rootEnd.None? then Some(index + 1) else st.rootEnd))
    else CapDepth(st)
  }

  function CapDepth(st: Scan): Result<Scan, Reason> {
    if st.depth > MAX_JSON_ARGS_DEPTH then Err(TooDeep) else Ok(st)
  }

  function RunBytes(st: Scan, index: nat, bs: seq<Byte>): Result<Scan, Reason>
    decreases |bs|
  {
    if bs == [] then Ok(st)
    else
      match StepByte(st, index, bs[0])
      case Err(e) => Err(e)
      case Ok(next) => RunBytes(next, index + 1, bs[1..])
  }

  /** What the gate answers for a blob. */
  function Outcome(blob: string): Result<(), Reason> {
    var t := Trim(Rust, blob);
    if ByteLen(blob) > MAX_JSON_ARGS_BYTES then Err(TooLarge)
    else if t == [] then Err(Empty)
    else if Bytes(t)[0] != OPEN_BRACE && Bytes(t)[0] != OPEN_BRACKET then Err(BadRoot)
    else
      match RunBytes(START, 0, Bytes(t))
      case Err(e) => Err(e)
      case Ok(st) =>
        if st.inString then Err(Unterminated)
        else if st.stack != [] then Err(Unbalanced)
        else if st.rootEnd.None? then Err(Unbalanced)
        else
          RootEndIsBoundary(t);
          if Trim(Rust, SliceFrom(t, st.rootEnd.value)) == [] then Ok(()) else Err(TrailingBytes)
  }

  /** `validate_json_args_blob`. */
  method ValidateJsonArgsBlob(blob: string) returns (r: Result<(), Reason>)
    ensures r == Outcome(blob)
    ensures r.Ok? <==> IsArgsDocument(blob)
    ensures r.Err? ==> RefusedFor(blob, r.error)
  {
    GateDecidesGrammar(blob);
    AnswerIsReasoned(blob);
    if ByteLen(blob) > MAX_JSON_ARGS_BYTES {
      return Err(TooLarge);
    }
    var trimmed := Trim(Rust, blob);
    if trimmed == [] {
      return Err(Empty);
    }
    var bytes := Bytes(trimmed);
    var opener := bytes[0];
    if opener != OPEN_BRACE && opener != OPEN_BRACKET {
      return Err(BadRoot);
    }
    var scanned := ScanBytes(bytes);
    if scanned.Err? {
      return Err(scanned.error);
    }
    if scanned.value.inString {
      return Err(Unterminated);
    }
    if scanned.value.stack != [] {
      return Err(Unbalanced);
    }
    match scanned.value.rootEnd
    case None => return Err(Unbalanced);
    case Some(end) =>
      RootEndIsBoundary(trimmed);
      if Trim(Rust, SliceFrom(trimmed, end)) == [] {
        return Ok(());
      }
      return Err(TrailingBytes);
  }

  /** Its loop over the bytes. */
  method ScanBytes(bytes: seq<Byte>) returns (r: Result<Scan, Reason>)
    ensures r == RunBytes(START, 0, bytes)
    ensures r.Ok? ==> r.value.depth == |r.value.stack| <= MAX_JSON_ARGS_DEPTH
  {
    var depth: nat := 0;
    var inString := false;
    var escaped := false;
    var stack: seq<Byte> := [];
    var rootEnd: Option<nat> := None;
    for index := 0 to |bytes|
      invariant depth == |stack| <= MAX_JSON_ARGS_DEPTH
      invariant RunBytes(START, 0, bytes)
             == RunBytes(Scan(inString, escaped, depth, stack, rootEnd), index, bytes[index..])
    {
      var b := bytes[index];
      assert bytes[index..][0] == b && bytes[index..][1..] == bytes[index + 1..];
      if inString {
        if escaped {
          escaped := false;
        } else if b == BACKSLASH {
          escaped := true;
        } else if b == QUOTE {
          inString := false;
        }
        continue;
      }
      if b == QUOTE {
        inString := true;
      } else if b == OPEN_BRACE {
        stack := stack + [CLOSE_BRACE];
        depth := depth + 1;
      } else if b == OPEN_BRACKET {
        stack := stack + [CLOSE_BRACKET];
        depth := depth + 1;
      } else if b == CLOSE_BRACE || b == CLOSE_BRACKET {
        if stack == [] || stack[|stack| - 1] != b {
          return Err(Unbalanced);
        }
        stack := stack[..|stack| - 1];
        depth := SaturatingPred(depth);
        if depth == 0 && rootEnd == None {
          rootEnd := Some(index + 1);
        }
      }
      if depth > MAX_JSON_ARGS_DEPTH {
        return Err(TooDeep);
      }
    }
    return Ok(Scan(inString, escaped, depth, stack, rootEnd));
  }

  // ---------------------------------------------------------------- the grammar

  /** One unit of a string body: a scalar, or a backslash and what it escapes. */
  datatype Unit = Plain(c: char) | Escaped(c: char)

  /** The structure the gate sees: bracket groups, strings, everything else. */
  datatype Item = Other(c: char) | Str(body: seq<Unit>) | Group(curly: bool, items: seq<Item>)

  predicate UnitOk(u: Unit) { u.Plain? ==> u.c != '"' && u.c != '\\' }

  predicate ItemOk(item: Item)
    decreases item, 1
  {
    match item
    case Other(c) => c != '"' && c != '{' && c != '}' && c != '[' && c != ']'
    case Str(body) => forall i :: 0 <= i < |body| ==> UnitOk(body[i])
    case Group(_, items) => ItemsOk(items)
  }

  predicate ItemsOk(items: seq<Item>)
    decreases items, 0
  {
    items == [] || (ItemOk(items[0]) && ItemsOk(items[1..]))
  }

  function RenderUnit(u: Unit): string {
    match u
    case Plain(c) => [c]
    case Escaped(c) => ['\\', c]
  }

  function RenderUnits(body: seq<Unit>): string {
    if body == [] then [] else RenderUnit(body[0]) + RenderUnits(body[1..])
  }

  function Opener(curly: bool): char { if curly then '{' else '[' }

  function Closer(curly: bool): char { if curly then '}' else ']' }

  function Render(item: Item): string
    decreases item, 1
  {
    match item
    case Other(c) => [c]
    case Str(body) => ['"'] + RenderUnits(body) + ['"']
    case Group(curly, items) => [Opener(curly)] + RenderAll(items) + [Closer(curly)]
  }

  function RenderAll(items: seq<Item>): string
    decreases items, 0
  {
    if items == [] then [] else Render(items[0]) + RenderAll(items[1..])
  }

  function Max(a: nat, b: nat): nat { if a < b then b else a }

  /** Bracket nesting: strings and other scalars do not nest. */
  function Depth(item: Item): nat
    decreases item, 1
  {
    match item
    case Group(_, items) => 1 + DepthAll(items)
    case _ => 0
  }

  function DepthAll(items: seq<Item>): nat
    decreases items, 0
  {
    if items == [] then 0 else Max(Depth(items[0]), DepthAll(items[1..]))
  }

  /** One root group of the grammar, nested at most to the cap. */
  ghost predicate IsDocument(root: Item, text: string) {
    root.Group? && ItemOk(root) && Depth(root) <= MAX_JSON_ARGS_DEPTH && Render(root) == text
  }

  ghost predicate IsArgsDocument(blob: string) {
    ByteLen(blob) <= MAX_JSON_ARGS_BYTES && exists root :: IsDocument(root, Trim(Rust, blob))
  }

  // ---------------------------------------------------------------- bytes and scalars

  /** The scanner on one scalar: every byte of a multi-byte scalar is opaque. */
  function StepChar(st: Scan, index: nat, c: char): Result<Scan, Reason> {
    if c as int < 0x80 then StepByte(st, index, c as int)
    else Ok(if st.inString then st.(escaped := false) else st)
  }

  function RunChars(st: Scan, index: nat, s: string): Result<Scan, Reason>
    decreases |s|
  {
    if s == [] then Ok(st)
    else
      match StepChar(st, index, s[0])
      case Err(e) => Err(e)
      case Ok(next) => RunChars(next, index + Utf8Len(s[0]), s[1..])
  }

  lemma {:induction false} RunBytesConcat(st: Scan, index: nat, a: seq<Byte>, b: seq<Byte>)
    ensures RunBytes(st, index, a + b)
         == match RunBytes(st, index, a)
            case Err(e) => Err(e)
            case Ok(next) => RunBytes(next, index + |a|, b)
    decreases |a|
  {
    if a == [] {
      assert a + b == b;
    } else {
      assert (a + b)[1..] == a[1..] + b;
      match StepByte(st, index, a[0])
      case Err(_) =>
      case Ok(next) => RunBytesConcat(next, index + 1, a[1..], b);
    }
  }

  /** Opaque bytes outside a string change nothing; inside one they only use up
      a pending escape. */
  lemma {:induction false} RunOpaqueBytes(st: Scan, index: nat, bs: seq<Byte>)
    requires st.depth <= MAX_JSON_ARGS_DEPTH && bs != [] && (st.escaped ==> st.inString)
    requires forall i :: 0 <= i < |bs| ==> bs[i] >= 0x80
    ensures RunBytes(st, index, bs) == Ok(st.(escaped := false))
    decreases |bs|
  {
    var next := st.(escaped := false);
    assert StepByte(st, index, bs[0]) == Ok(next);
    if |bs| > 1 {
      RunOpaqueBytes(next, index + 1, bs[1..]);
    }
  }

  /** What every reachable scanner state satisfies. */
  predicate Sound(st: Scan) {
    st.depth == |st.stack| <= MAX_JSON_ARGS_DEPTH && (st.escaped ==> st.inString)
  }

  lemma StepKeepsSound(st: Scan, index: nat, c: char)
    requires Sound(st) && StepChar(st, index, c).Ok?
    ensures Sound(StepChar(st, index, c).value)
  {
  }

  /** The depth counter is always the height of the bracket stack, so its
      saturating decrement never saturates on an accepted closer. */
  lemma {:induction false} DepthIsStackHeight(st: Scan, index: nat, bs: seq<Byte>)
    requires Sound(st) && RunBytes(st, index, bs).Ok?
    ensures Sound(RunBytes(st, index, bs).value)
    decreases |bs|
  {
    if bs == [] {
    } else {
      DepthIsStackHeight(StepByte(st, index, bs[0]).value, index + 1, bs[1..]);
    }
  }

  lemma {:induction false} BytesRunAsChars(st: Scan, index: nat, s: string)
    requires Sound(st)
    ensures RunBytes(st, index, Bytes(s)) == RunChars(st, index, s)
    decreases |s|
  {
    if s == [] {
    } else {
      var bs := Utf8(s[0]);
      RunBytesConcat(st, index, bs, Bytes(s[1..]));
      if s[0] as int < 0x80 {
        assert bs[1..] == [];
        assert RunBytes(st, index, bs) == StepByte(st, index, bs[0]);
      } else {
        RunOpaqueBytes(st, index, bs);
      }
      if StepChar(st, index, s[0]).Ok? {
        StepKeepsSound(st, index, s[0]);
        BytesRunAsChars(StepChar(st, index, s[0]).value, index + Utf8Len(s[0]), s[1..]);
      }
    }
  }

  lemma {:induction false} RunCharsConcat(st: Scan, index: nat, a: string, b: string)
    ensures RunChars(st, index, a + b)
         == match RunChars(st, index, a)
            case Err(e) => Err(e)
            case Ok(next) => RunChars(next, index + ByteLen(a), b)
    decreases |a|
  {
    if a == [] {
      assert a + b == b;
    } else {
      assert (a + b)[1..] == a[1..] + b;
      match StepChar(st, index, a[0])
      case Err(_) =>
      case Ok(next) => RunCharsConcat(next, index + Utf8Len(a[0]), a[1..], b);
    }
  }

  lemma {:induction false} RootEndOffset(st: Scan, index: nat, s: string) returns (k: nat)
    requires RunChars(st, index, s).Ok? && st.rootEnd.None?
    requires RunChars(st, index, s).value.rootEnd.Some?
    ensures k <= |s| && RunChars(st, index, s).value.rootEnd.value == index + ByteLen(s[..k])
    ensures IsBoundary(s, ByteLen(s[..k])) && SliceFrom(s, ByteLen(s[..k])) == s[k..]
    decreases |s|
  {
    var next := StepChar(st, index, s[0]).value;
    if next.rootEnd.Some? {
      RootEndStays(next, index + 1, s[1..]);
      k := 1;
      assert s[..1] == [s[0]] && s[..1][1..] == [];
      assert IsBoundary(s[1..], 0);
    } else {
      var j := RootEndOffset(next, index + Utf8Len(s[0]), s[1..]);
      k := j + 1;
      assert s[..k][1..] == s[1..][..j];
      assert s[1..][j..] == s[k..];
    }
  }

  lemma {:induction false} RootEndStays(st: Scan, index: nat, s: string)
    requires RunChars(st, index, s).Ok? && st.rootEnd.Some?
    ensures RunChars(st, index, s).value.rootEnd == st.rootEnd
    decreases |s|
  {
    if s == [] {
    } else {
      RootEndStays(StepChar(st, index, s[0]).value, index + Utf8Len(s[0]), s[1..]);
    }
  }

  /** The recorded end of the root value always falls between two scalars, so
      slicing there never panics. */
  lemma RootEndIsBoundary(t: string)
    requires RunBytes(START, 0, Bytes(t)).Ok?
    ensures RunBytes(START, 0, Bytes(t)).value.rootEnd.Some? ==>
              IsBoundary(t, RunBytes(START, 0, Bytes(t)).value.rootEnd.value)
  {
    BytesRunAsChars(START, 0, t);
    if RunBytes(START, 0, Bytes(t)).value.rootEnd.Some? {
      var _ := RootEndOffset(START, 0, t);
    }
  }

  // ---------------------------------------------------------------- every document scans

  lemma RunOne(st: Scan, index: nat, c: char)
    ensures RunChars(st, index, [c]) == StepChar(st, index, c)
  {
    assert [c][1..] == [];
  }

  lemma RunUnit(st: Scan, index: nat, u: Unit)
    requires st.inString && !st.escaped && UnitOk(u)
    ensures RunChars(st, index, RenderUnit(u)) == Ok(st)
  {
    if u.Escaped? {
      RunCharsConcat(st, index, ['\\'], [u.c]);
      RunOne(st, index, '\\');
      RunOne(st.(escaped := true), index + 1, u.c);
      assert RenderUnit(u) == ['\\'] + [u.c];
      assert ByteLen(['\\']) == 1;
    } else {
      RunOne(st, index, u.c);
    }
  }

  lemma {:induction false} RunUnits(st: Scan, index: nat, body: seq<Unit>)
    requires st.inString && !st.escaped
    requires forall i :: 0 <= i < |body| ==> UnitOk(body[i])
    ensures RunChars(st, index, RenderUnits(body)) == Ok(st)
    decreases |body|
  {
    if body == [] {
    } else {
      var u := RenderUnit(body[0]);
      RunCharsConcat(st, index, u, RenderUnits(body[1..]));
      RunUnit(st, index, body[0]);
      RunUnits(st, index + ByteLen(u), body[1..]);
    }
  }

  /** The state once an opening bracket is on the stack. */
  function Pushed(st: Scan, curly: bool): Scan {
    st.(stack := st.stack + [Closer(curly) as int], depth := st.depth + 1)
  }

  /** The state after the bracket on top of the stack closes. */
  function Popped(st: Scan, end: nat): Scan
    requires st.stack != [] && st.depth > 0
  {
    st.(stack := st.stack[..|st.stack| - 1], depth := st.depth - 1,
        rootEnd := if st.depth == 1 && st.rootEnd.None? then Some(end) else st.rootEnd)
  }

  /** The state after a whole group that ends at byte `end`: unchanged, except
      that the outermost group records the root's end. */
  function AfterGroup(st: Scan, end: nat): Scan {
    if st.stack == [] && st.rootEnd.None? then st.(rootEnd := Some(end)) else st
  }

  function AfterItem(st: Scan, item: Item, end: nat): Scan {
    if item.Group? then AfterGroup(st, end) else st
  }

  lemma StepOpen(st: Scan, index: nat, curly: bool)
    requires Sound(st) && !st.inString
    ensures StepChar(st, index, Opener(curly))
         == if st.depth < MAX_JSON_ARGS_DEPTH then Ok(Pushed(st, curly)) else Err(TooDeep)
  {
  }

  lemma StepClose(st: Scan, index: nat, c: char)
    requires Sound(st) && !st.inString && st.stack != [] && (c == '}' || c == ']')
    ensures StepChar(st, index, c)
         == if st.stack[|st.stack| - 1] == c as int then Ok(Popped(st, index + 1)) else Err(Unbalanced)
  {
  }

  lemma PopOfPush(st: Scan, curly: bool, end: nat)
    requires Sound(st)
    ensures Popped(Pushed(st, curly), end) == AfterGroup(st, end)
  {
    assert Pushed(st, curly).stack[..|st.stack|] == st.stack;
  }

  lemma ByteLenWrapped(open: char, inner: string, close: char)
    ensures ByteLen([open] + inner + [close]) == Utf8Len(open) + ByteLen(inner) + Utf8Len(close)
  {
    ByteLenConcat([open] + inner, [close]);
    ByteLenConcat([open], inner);
  }

  /** If the inside of a bracket pair scans back to its start, so does the pair. */
  lemma RunBracketed(st: Scan, index: nat, curly: bool, inner: string)
    requires Sound(st) && !st.inString && st.depth < MAX_JSON_ARGS_DEPTH
    requires RunChars(Pushed(st, curly), index + 1, inner) == Ok(Pushed(st, curly))
    ensures var text := [Opener(curly)] + inner + [Closer(curly)];
            RunChars(st, index, text) == Ok(AfterGroup(st, index + ByteLen(text)))
  {
    var head, tail := [Opener(curly)], [Closer(curly)];
    var pushed := Pushed(st, curly);
    var at := index + 1 + ByteLen(inner);
    RunCharsConcat(st, index, head + inner, tail);
    RunCharsConcat(st, index, head, inner);
    ByteLenConcat(head, inner);
    ByteLenWrapped(Opener(curly), inner, Closer(curly));
    RunOne(st, index, Opener(curly));
    StepOpen(st, index, curly);
    RunOne(pushed, at, Closer(curly));
    StepClose(pushed, at, Closer(curly));
    PopOfPush(st, curly, at + 1);
  }

  lemma RunQuoted(st: Scan, index: nat, inner: string)
    requires Sound(st) && !st.inString
    requires RunChars(st.(inString := true), index + 1, inner) == Ok(st.(inString := true))
    ensures RunChars(st, index, ['"'] + inner + ['"']) == Ok(st)
  {
    RunCharsConcat(st, index, ['"'] + inner, ['"']);
    RunCharsConcat(st, index, ['"'], inner);
    RunOne(st, index, '"');
    RunOne(st.(inString := true), index + ByteLen(['"'] + inner), '"');
  }

  /** Scanning a whole item returns to where it started. */
  lemma {:induction false} RunItem(st: Scan, index: nat, item: Item)
    requires Sound(st) && !st.inString && ItemOk(item)
    requires |st.stack| + Depth(item) <= MAX_JSON_ARGS_DEPTH
    ensures RunChars(st, index, Render(item)) == Ok(AfterItem(st, item, index + ByteLen(Render(item))))
    decreases item, 1
  {
    match item
    case Other(c) =>
      RunOne(st, index, c);
    case Str(body) =>
      RunUnits(st.(inString := true), index + 1, body);
      RunQuoted(st, index, RenderUnits(body));
    case Group(curly, items) =>
      RunItems(Pushed(st, curly), index + 1, items);
      RunBracketed(st, index, curly, RenderAll(items));
  }

  lemma {:induction false} RunItems(st: Scan, index: nat, items: seq<Item>)
    requires Sound(st) && !st.inString && st.stack != [] && ItemsOk(items)
    requires |st.stack| + DepthAll(items) <= MAX_JSON_ARGS_DEPTH
    ensures RunChars(st, index, RenderAll(items)) == Ok(st)
    decreases items, 0
  {
    if items == [] {
    } else {
      var first := Render(items[0]);
      RunItem(st, index, items[0]);
      RunItems(st, index + ByteLen(first), items[1..]);
      RunCharsConcat(st, index, first, RenderAll(items[1..]));
    }
  }

  // ---------------------------------------------------------------- every accepted scan is a document

  lemma ConsUnit(u: Unit, body: seq<Unit>, tail: string)
    ensures RenderUnits([u] + body) + tail == RenderUnit(u) + (RenderUnits(body) + tail)
  {
    assert ([u] + body)[1..] == body;
  }

  /** A scan that leaves the string it is in met the closing quote. */
  lemma {:induction false} FindQuote(st: Scan, index: nat, s: string, fin: Scan) returns (body: seq<Unit>, rest: string)
    requires st.inString && !st.escaped && RunChars(st, index, s) == Ok(fin) && !fin.inString
    ensures forall i :: 0 <= i < |body| ==> UnitOk(body[i])
    ensures s == RenderUnits(body) + (['"'] + rest) && |rest| < |s|
    decreases |s|
  {
    if s[0] == '"' {
      body, rest := [], s[1..];
      assert s == ['"'] + s[1..];
    } else if s[0] == '\\' {
      var b, r := FindQuote(st, index + 1 + Utf8Len(s[1]), s[1..][1..], fin);
      body, rest := [Escaped(s[1])] + b, r;
      ConsUnit(Escaped(s[1]), b, ['"'] + r);
      assert s == ['\\', s[1]] + s[1..][1..];
    } else {
      var b, r := FindQuote(st, index + Utf8Len(s[0]), s[1..], fin);
      body, rest := [Plain(s[0])] + b, r;
      ConsUnit(Plain(s[0]), b, ['"'] + r);
      assert s == [s[0]] + s[1..];
    }
  }

  /** It can be cut there. */
  lemma CutString(st: Scan, index: nat, s: string, fin: Scan) returns (body: seq<Unit>, rest: string)
    requires Sound(st) && st.inString && !st.escaped
    requires RunChars(st, index, s) == Ok(fin) && !fin.inString
    ensures forall i :: 0 <= i < |body| ==> UnitOk(body[i])
    ensures s == RenderUnits(body) + ['"'] + rest && |rest| < |s|
    ensures RunChars(st.(inString := false), index + ByteLen(RenderUnits(body)) + 1, rest) == Ok(fin)
  {
    body, rest := FindQuote(st, index, s, fin);
    var end := index + ByteLen(RenderUnits(body));
    RunUnits(st, index, body);
    RunCharsConcat(st, index, RenderUnits(body), ['"'] + rest);
    RunCharsConcat(st, end, ['"'], rest);
    RunOne(st, end, '"');
    assert ByteLen(['"']) == 1;
    assert s == RenderUnits(body) + ['"'] + rest;
  }

  predicate IsCloser(b: Byte) { b == CLOSE_BRACE || b == CLOSE_BRACKET }

  lemma ConsItemText(first: Item, more: seq<Item>, tail: string)
    ensures ByteLen(RenderAll([first] + more)) == ByteLen(Render(first)) + ByteLen(RenderAll(more))
    ensures Render(first) + (RenderAll(more) + tail) == RenderAll([first] + more) + tail
  {
    var all := [first] + more;
    assert all[0] == first && all[1..] == more;
    ByteLenConcat(Render(first), RenderAll(more));
  }

  lemma ConsItem(first: Item, more: seq<Item>)
    ensures ItemsOk([first] + more) <==> ItemOk(first) && ItemsOk(more)
    ensures DepthAll([first] + more) == Max(Depth(first), DepthAll(more))
  {
    var all := [first] + more;
    assert all[0] == first && all[1..] == more;
  }

  /** The postcondition of a cut: `items` up to the bracket on top of the stack. */
  predicate IsCut(st: Scan, index: nat, s: string, fin: Scan, items: seq<Item>, rest: string)
    requires Sound(st) && st.stack != [] && IsCloser(st.stack[|st.stack| - 1])
  {
    && ItemsOk(items) && |st.stack| + DepthAll(items) <= MAX_JSON_ARGS_DEPTH
    && s == RenderAll(items) + ([st.stack[|st.stack| - 1] as char] + rest)
    && var end := index + ByteLen(RenderAll(items)) + 1;
       RunChars(Popped(st, end), end, rest) == Ok(fin)
  }

  lemma CutHere(st: Scan, index: nat, s: string, fin: Scan)
    requires Sound(st) && !st.inString && st.stack != [] && IsCloser(st.stack[|st.stack| - 1])
    requires RunChars(st, index, s) == Ok(fin) && s != [] && (s[0] == '}' || s[0] == ']')
    ensures IsCut(st, index, s, fin, [], s[1..])
  {
    StepClose(st, index, s[0]);
    assert s == [s[0]] + s[1..];
  }

  lemma CutFurther(st: Scan, index: nat, s: string, fin: Scan, first: Item, after: string,
                   more: seq<Item>, rest: string)
    requires Sound(st) && st.stack != [] && IsCloser(st.stack[|st.stack| - 1])
    requires ItemOk(first) && |st.stack| + Depth(first) <= MAX_JSON_ARGS_DEPTH
    requires s == Render(first) + after
    requires IsCut(st, index + ByteLen(Render(first)), after, fin, more, rest)
    ensures IsCut(st, index, s, fin, [first] + more, rest)
  {
    ConsItem(first, more);
    ConsItemText(first, more, [st.stack[|st.stack| - 1] as char] + rest);
  }

  /** A scan that empties the stack can be cut where the innermost open bracket
      closes: what came before is a list of items, nested within the cap. */
  lemma {:induction false} CutGroup(st: Scan, index: nat, s: string, fin: Scan)
    returns (items: seq<Item>, rest: string)
    requires Sound(st) && !st.inString && st.stack != []
    requires forall i :: 0 <= i < |st.stack| ==> IsCloser(st.stack[i])
    requires RunChars(st, index, s) == Ok(fin) && !fin.inString && fin.stack == []
    ensures IsCut(st, index, s, fin, items, rest) && |rest| < |s|
    decreases |s|, 2
  {
    assert s != [];
    if s[0] == '}' || s[0] == ']' {
      items, rest := [], s[1..];
      CutHere(st, index, s, fin);
    } else {
      var first, after, at := CutItem(st, index, s, fin);
      assert AfterItem(st, first, at) == st;
      var more;
      more, rest := CutGroup(st, at, after, fin);
      items := [first] + more;
      CutFurther(st, index, s, fin, first, after, more, rest);
    }
  }

  lemma {:induction false} CutItem(st: Scan, index: nat, s: string, fin: Scan)
    returns (first: Item, after: string, at: nat)
    requires Sound(st) && !st.inString && s != [] && s[0] != '}' && s[0] != ']'
    requires forall i :: 0 <= i < |st.stack| ==> IsCloser(st.stack[i])
    requires RunChars(st, index, s) == Ok(fin) && !fin.inString && fin.stack == []
    ensures ItemOk(first) && |st.stack| + Depth(first) <= MAX_JSON_ARGS_DEPTH
    ensures s == Render(first) + after && |after| < |s|
    ensures at == index + ByteLen(Render(first))
    ensures first.Group? <==> s[0] == '{' || s[0] == '['
    ensures RunChars(AfterItem(st, first, at), at, after) == Ok(fin)
    decreases |s|, 1
  {
    if s[0] == '"' {
      first, after := CutQuoted(st, index, s, fin);
    } else if s[0] == '{' || s[0] == '[' {
      var inner;
      inner, after := CutInnerGroup(st, index, s, fin);
      first := Group(s[0] == '{', inner);
    } else {
      first, after := Other(s[0]), s[1..];
      CutOther(st, index, s, fin);
    }
    at := index + ByteLen(Render(first));
  }

  lemma CutOther(st: Scan, index: nat, s: string, fin: Scan)
    requires Sound(st) && !st.inString && s != [] && RunChars(st, index, s) == Ok(fin)
    requires s[0] != '"' && s[0] != '{' && s[0] != '[' && s[0] != '}' && s[0] != ']'
    ensures var first := Other(s[0]);
            && ItemOk(first) && |st.stack| + Depth(first) <= MAX_JSON_ARGS_DEPTH
            && s == Render(first) + s[1..]
            && RunChars(st, index + ByteLen(Render(first)), s[1..]) == Ok(fin)
  {
    assert s == [s[0]] + s[1..];
    assert ByteLen([s[0]]) == Utf8Len(s[0]);
  }

  lemma CutQuoted(st: Scan, index: nat, s: string, fin: Scan) returns (first: Item, after: string)
    requires Sound(st) && !st.inString && s != [] && s[0] == '"'
    requires RunChars(st, index, s) == Ok(fin) && !fin.inString
    ensures first.Str? && ItemOk(first) && s == Render(first) + after && |after| < |s|
    ensures RunChars(st, index + ByteLen(Render(first)), after) == Ok(fin)
  {
    var body;
    body, after := CutString(st.(inString := true), index + 1, s[1..], fin);
    first := Str(body);
    assert s == ['"'] + s[1..];
    ByteLenWrapped('"', RenderUnits(body), '"');
    assert st.(inString := true).(inString := false) == st;
  }

  lemma {:induction false} CutInnerGroup(st: Scan, index: nat, s: string, fin: Scan)
    returns (inner: seq<Item>, after: string)
    requires Sound(st) && !st.inString && s != [] && (s[0] == '{' || s[0] == '[')
    requires forall i :: 0 <= i < |st.stack| ==> IsCloser(st.stack[i])
    requires RunChars(st, index, s) == Ok(fin) && !fin.inString && fin.stack == []
    ensures ItemsOk(inner) && |st.stack| + 1 + DepthAll(inner) <= MAX_JSON_ARGS_DEPTH
    ensures var g := Group(s[0] == '{', inner);
            && s == Render(g) + after && |after| < |s|
            && var at := index + ByteLen(Render(g));
               RunChars(AfterItem(st, g, at), at, after) == Ok(fin)
    decreases |s|, 0
  {
    StepOpen(st, index, s[0] == '{');
    inner, after := CutGroup(Pushed(st, s[0] == '{'), index + 1, s[1..], fin);
    GlueGroup(st, index, s, fin, inner, after);
  }

  lemma GlueGroup(st: Scan, index: nat, s: string, fin: Scan, inner: seq<Item>, after: string)
    requires Sound(st) && st.depth < MAX_JSON_ARGS_DEPTH && s != [] && (s[0] == '{' || s[0] == '[')
    requires IsCut(Pushed(st, s[0] == '{'), index + 1, s[1..], fin, inner, after)
    ensures ItemsOk(inner) && |st.stack| + 1 + DepthAll(inner) <= MAX_JSON_ARGS_DEPTH
    ensures var g := Group(s[0] == '{', inner);
            && s == Render(g) + after
            && var at := index + ByteLen(Render(g));
               RunChars(AfterItem(st, g, at), at, after) == Ok(fin)
  {
    var curly := s[0] == '{';
    assert s == [s[0]] + s[1..];
    ByteLenWrapped(s[0], RenderAll(inner), Closer(curly));
    PopOfPush(st, curly, index + 1 + ByteLen(RenderAll(inner)) + 1);
  }

  // ---------------------------------------------------------------- the gate is the grammar

  lemma FirstByte(t: string)
    requires t != []
    ensures Bytes(t) != []
    ensures Bytes(t)[0] == OPEN_BRACE <==> t[0] == '{'
    ensures Bytes(t)[0] == OPEN_BRACKET <==> t[0] == '['
  {
    assert Utf8(t[0])[0] == Bytes(t)[0];
  }

  lemma AcceptedIsDocument(blob: string) returns (root: Item)
    requires Outcome(blob).Ok?
    ensures IsDocument(root, Trim(Rust, blob))
  {
    var t := Trim(Rust, blob);
    FirstByte(t);
    BytesRunAsChars(START, 0, t);
    var fin := RunChars(START, 0, t).value;
    var first, after, at := CutItem(START, 0, t, fin);
    RootEndStays(AfterItem(START, first, at), at, after);
    SliceAfter(Render(first), after);
    var _, _ := TrimShape(Rust, blob);
    var _, _ := TrimShape(Rust, after);
    root := first;
    assert t == Render(root) + [];
  }

  lemma {:induction false} SliceAfter(a: string, b: string)
    ensures IsBoundary(a + b, ByteLen(a)) && SliceFrom(a + b, ByteLen(a)) == b
  {
    if a == [] {
      assert a + b == b;
    } else {
      assert (a + b)[1..] == a[1..] + b;
      SliceAfter(a[1..], b);
    }
  }

  lemma DocumentIsAccepted(blob: string, root: Item)
    requires ByteLen(blob) <= MAX_JSON_ARGS_BYTES && IsDocument(root, Trim(Rust, blob))
    ensures Outcome(blob).Ok?
  {
    var t := Trim(Rust, blob);
    assert t[0] == Opener(root.curly);
    FirstByte(t);
    BytesRunAsChars(START, 0, t);
    RunItem(START, 0, root);
    SliceAfter(t, []);
    assert t + [] == t;
  }

  /** The flat byte loop accepts exactly the blobs that fit the size cap and
      whose trimmed text is one bracket group of the recursive grammar. */
  lemma GateDecidesGrammar(blob: string)
    ensures Outcome(blob).Ok? <==> IsArgsDocument(blob)
  {
    if Outcome(blob).Ok? {
      var root := AcceptedIsDocument(blob);
    }
    if IsArgsDocument(blob) {
      var root :| IsDocument(root, Trim(Rust, blob));
      DocumentIsAccepted(blob, root);
    }
  }

  lemma DocumentEnds(root: Item, text: string)
    requires IsDocument(root, text)
    ensures RunChars(START, 0, text) == Ok(START.(rootEnd := Some(ByteLen(text))))
  {
    RunItem(START, 0, root);
  }

  /** No accepted document is a proper prefix of another. */
  lemma DocumentsArePrefixFree(a: Item, short: string, b: Item, more: string)
    requires IsDocument(a, short) && IsDocument(b, short + more)
    ensures more == []
  {
    DocumentEnds(a, short);
    DocumentEnds(b, short + more);
    RunCharsConcat(START, 0, short, more);
    RootEndStays(START.(rootEnd := Some(ByteLen(short))), ByteLen(short), more);
    ByteLenConcat(short, more);
    ByteLenAtLeast(more);
  }

  // ---------------------------------------------------------------- why a text is refused

  /** A group still open: what stands before it, and its bracket. */
  datatype Frame = Frame(before: seq<Item>, curly: bool)

  /** A place inside a text, outside strings: the groups open there, and the
      items read since the innermost one opened. */
  datatype Context = Context(frames: seq<Frame>, items: seq<Item>)

  function FramesText(frames: seq<Frame>): string {
    if frames == [] then []
    else
      var last := frames[|frames| - 1];
      FramesText(frames[..|frames| - 1]) + RenderAll(last.before) + [Opener(last.curly)]
  }

  function ContextText(c: Context): string { FramesText(c.frames) + RenderAll(c.items) }

  /** Nothing at fault so far: whole items only, never deeper than the cap. */
  predicate ContextOk(c: Context) {
    && |c.frames| + DepthAll(c.items) <= MAX_JSON_ARGS_DEPTH && ItemsOk(c.items)
    && forall i :: 0 <= i < |c.frames| ==>
         ItemsOk(c.frames[i].before) && i + DepthAll(c.frames[i].before) <= MAX_JSON_ARGS_DEPTH
  }

  predicate BodyOk(body: seq<Unit>) { forall i :: 0 <= i < |body| ==> UnitOk(body[i]) }

  /** `closer` fits no open group, or not the innermost one. */
  predicate Stray(c: Context, closer: char) {
    (closer == '}' || closer == ']') && (c.frames == [] || Closer(c.frames[|c.frames| - 1].curly) != closer)
  }

  /** What reading a text to its end or its first fault comes to. */
  datatype Verdict =
    | Ends(c: Context)
    | InString(c: Context, body: seq<Unit>, dangling: bool)
    | StrayCloser(c: Context, closer: char, rest: string)
    | OverCap(c: Context, curly: bool, rest: string)

  function Dangling(d: bool): string { if d then ['\\'] else [] }

  ghost predicate Shows(t: string, v: Verdict) {
    && ContextOk(v.c)
    && match v
       case Ends(c) => t == ContextText(c)
       case InString(c, body, dangling) =>
         BodyOk(body) && t == ContextText(c) + (['"'] + (RenderUnits(body) + Dangling(dangling)))
       case StrayCloser(c, closer, rest) => Stray(c, closer) && t == ContextText(c) + ([closer] + rest)
       case OverCap(c, curly, rest) =>
         |c.frames| == MAX_JSON_ARGS_DEPTH && t == ContextText(c) + ([Opener(curly)] + rest)
  }

  /** A root group within the cap, then more items that are not all blank. */
  ghost predicate HasTrailing(t: string, root: Item, more: seq<Item>) {
    && root.Group? && ItemOk(root) && Depth(root) <= MAX_JSON_ARGS_DEPTH
    && ItemsOk(more) && DepthAll(more) <= MAX_JSON_ARGS_DEPTH && Trim(Rust, RenderAll(more)) != []
    && t == Render(root) + RenderAll(more)
  }

  predicate FitsCap(blob: string) { ByteLen(blob) <= MAX_JSON_ARGS_BYTES }

  predicate StartsOpen(t: string) { t != [] && (t[0] == '{' || t[0] == '[') }

  /** Each reason, read off the text. */
  ghost predicate RefusedFor(blob: string, reason: Reason) {
    var t := Trim(Rust, blob);
    match reason
    case TooLarge => !FitsCap(blob)
    case Empty => FitsCap(blob) && t == []
    case BadRoot => FitsCap(blob) && t != [] && !StartsOpen(t)
    case Unterminated => FitsCap(blob) && StartsOpen(t) && exists v :: Shows(t, v) && v.InString?
    case Unbalanced =>
      && FitsCap(blob) && StartsOpen(t)
      && exists v :: Shows(t, v) && (v.StrayCloser? || (v.Ends? && v.c.frames != []))
    case TooDeep => FitsCap(blob) && StartsOpen(t) && exists v :: Shows(t, v) && v.OverCap?
    case TrailingBytes => FitsCap(blob) && StartsOpen(t) && exists root, more :: HasTrailing(t, root, more)
  }

  // every text shows something

  lemma SnocCons(items: seq<Item>, x: Item)
    requires items != []
    ensures (items + [x])[0] == items[0] && (items + [x])[1..] == items[1..] + [x]
  {
  }

  lemma OneItem(x: Item)
    ensures [x][1..] == [] && RenderAll([x]) == Render(x) && (ItemsOk([x]) <==> ItemOk(x)) && DepthAll([x]) == Depth(x)
  {
    assert Render(x) + [] == Render(x);
  }

  lemma {:induction false} RenderSnoc(items: seq<Item>, x: Item)
    ensures RenderAll(items + [x]) == RenderAll(items) + Render(x)
    decreases |items|
  {
    if items == [] {
      assert items + [x] == [x] && [] + Render(x) == Render(x);
      OneItem(x);
    } else {
      SnocCons(items, x);
      RenderSnoc(items[1..], x);
    }
  }

  lemma {:induction false} ItemsSnoc(items: seq<Item>, x: Item)
    ensures ItemsOk(items + [x]) <==> ItemsOk(items) && ItemOk(x)
    ensures DepthAll(items + [x]) == Max(DepthAll(items), Depth(x))
    decreases |items|
  {
    if items == [] {
      assert items + [x] == [x];
      OneItem(x);
    } else {
      SnocCons(items, x);
      ItemsSnoc(items[1..], x);
    }
  }

  lemma {:induction false} UnitsSnoc(body: seq<Unit>, u: Unit)
    ensures RenderUnits(body + [u]) == RenderUnits(body) + RenderUnit(u)
    decreases |body|
  {
    var all := body + [u];
    if body == [] {
      assert all == [u] && all[1..] == [];
    } else {
      assert all[0] == body[0] && all[1..] == body[1..] + [u];
      UnitsSnoc(body[1..], u);
    }
  }

  /** One more whole item. */
  function WithItem(c: Context, x: Item): Context { c.(items := c.items + [x]) }

  lemma WithItemOk(c: Context, x: Item)
    requires ContextOk(c) && ItemOk(x) && |c.frames| + Depth(x) <= MAX_JSON_ARGS_DEPTH
    ensures ContextOk(WithItem(c, x)) && ContextText(WithItem(c, x)) == ContextText(c) + Render(x)
  {
    RenderSnoc(c.items, x);
    ItemsSnoc(c.items, x);
  }

  function Opened(c: Context, curly: bool): Context { Context(c.frames + [Frame(c.items, curly)], []) }

  lemma OpenedOk(c: Context, curly: bool)
    requires ContextOk(c) && |c.frames| < MAX_JSON_ARGS_DEPTH
    ensures ContextOk(Opened(c, curly)) && ContextText(Opened(c, curly)) == ContextText(c) + [Opener(curly)]
  {
    var frames := Opened(c, curly).frames;
    assert frames[..|frames| - 1] == c.frames;
  }

  function Closed(c: Context): Context
    requires c.frames != []
  {
    var last := c.frames[|c.frames| - 1];
    Context(c.frames[..|c.frames| - 1], last.before + [Group(last.curly, c.items)])
  }

  lemma ClosedOk(c: Context)
    requires ContextOk(c) && c.frames != []
    ensures ContextOk(Closed(c))
    ensures ContextText(Closed(c)) == ContextText(c) + [Closer(c.frames[|c.frames| - 1].curly)]
  {
    var last := c.frames[|c.frames| - 1];
    RenderSnoc(last.before, Group(last.curly, c.items));
    ItemsSnoc(last.before, Group(last.curly, c.items));
  }

  /** One character more, outside strings. */
  lemma ReadOutside(c: Context, x: char) returns (v: Verdict)
    requires ContextOk(c)
    ensures Shows(ContextText(c) + [x], v)
  {
    if x == '"' {
      v := InString(c, [], false);
      assert ['"'] + (RenderUnits([]) + Dangling(false)) == ['"'];
    } else if x == '{' || x == '[' {
      if |c.frames| == MAX_JSON_ARGS_DEPTH {
        v := OverCap(c, x == '{', []);
        assert [x] + [] == [x];
      } else {
        OpenedOk(c, x == '{');
        v := Ends(Opened(c, x == '{'));
      }
    } else if x == '}' || x == ']' {
      if Stray(c, x) {
        v := StrayCloser(c, x, []);
        assert [x] + [] == [x];
      } else {
        ClosedOk(c);
        v := Ends(Closed(c));
      }
    } else {
      WithItemOk(c, Other(x));
      v := Ends(WithItem(c, Other(x)));
    }
  }

  /** One character more, inside a string: the pieces after its quote. */
  lemma ReadInside(c: Context, body: seq<Unit>, dangling: bool, x: char) returns (v: Verdict)
    requires ContextOk(c) && BodyOk(body)
    ensures Shows(ContextText(c) + (['"'] + (RenderUnits(body) + Dangling(dangling))) + [x], v)
  {
    var text := RenderUnits(body) + Dangling(dangling);
    assert ContextText(c) + (['"'] + text) + [x] == ContextText(c) + (['"'] + (text + [x]));
    if !dangling && x == '"' {
      WithItemOk(c, Str(body));
      v := Ends(WithItem(c, Str(body)));
      assert ['"'] + (text + [x]) == Render(Str(body));
    } else if !dangling && x == '\\' {
      v := InString(c, body, true);
      assert text + [x] == RenderUnits(body) + Dangling(true);
    } else {
      var u := if dangling then Escaped(x) else Plain(x);
      v := InString(c, body + [u], false);
      ReadUnit(body, dangling, x);
    }
  }

  lemma ReadUnit(body: seq<Unit>, dangling: bool, x: char)
    requires BodyOk(body) && (dangling || (x != '"' && x != '\\'))
    ensures var u := if dangling then Escaped(x) else Plain(x);
            && BodyOk(body + [u])
            && RenderUnits(body) + Dangling(dangling) + [x] == RenderUnits(body + [u]) + Dangling(false)
  {
    UnitsSnoc(body, if dangling then Escaped(x) else Plain(x));
    LastUnit(RenderUnits(body), dangling, x);
  }

  lemma LastUnit(text: string, dangling: bool, x: char)
    ensures text + Dangling(dangling) + [x]
         == text + RenderUnit(if dangling then Escaped(x) else Plain(x)) + Dangling(false)
  {
    if dangling {
      assert text + ['\\'] + [x] == text + ['\\', x] + [];
    } else {
      assert text + [] + [x] == text + [x] + [];
    }
  }

  /** Every text has a verdict. */
  lemma {:induction false} ReadText(t: string) returns (v: Verdict)
    ensures Shows(t, v)
    decreases |t|
  {
    if t == [] {
      v := Ends(Context([], []));
      assert t == ContextText(v.c);
    } else {
      var x := t[|t| - 1];
      var u := ReadText(t[..|t| - 1]);
      assert t == t[..|t| - 1] + [x];
      match u
      case Ends(c) => v := ReadOutside(c, x);
      case InString(c, body, dangling) => v := ReadInside(c, body, dangling, x);
      case StrayCloser(c, closer, rest) =>
        v := StrayCloser(c, closer, rest + [x]);
        assert t == ContextText(c) + ([closer] + (rest + [x]));
      case OverCap(c, curly, rest) =>
        v := OverCap(c, curly, rest + [x]);
        assert t == ContextText(c) + ([Opener(curly)] + (rest + [x]));
    }
  }

  // what is shown is what the scanner answers

  /** At any height, whole items scan back to the state before them, but for the
      recorded end of the root. */
  lemma {:induction false} RunAnyItems(st: Scan, index: nat, items: seq<Item>) returns (end: Option<nat>)
    requires Sound(st) && !st.inString && ItemsOk(items)
    requires |st.stack| + DepthAll(items) <= MAX_JSON_ARGS_DEPTH
    ensures RunChars(st, index, RenderAll(items)) == Ok(st.(rootEnd := end))
    ensures st.rootEnd.Some? ==> end == st.rootEnd
    decreases |items|
  {
    if items == [] {
      end := st.rootEnd;
    } else {
      var first := Render(items[0]);
      RunItem(st, index, items[0]);
      var next := AfterItem(st, items[0], index + ByteLen(first));
      end := RunAnyItems(next, index + ByteLen(first), items[1..]);
      RunCharsConcat(st, index, first, RenderAll(items[1..]));
    }
  }

  function Closers(frames: seq<Frame>): seq<Byte> {
    seq(|frames|, i requires 0 <= i < |frames| => Closer(frames[i].curly) as int)
  }

  /** A frame more on the scanner's stack. */
  lemma RunFrame(text: string, base: Scan, frame: Frame) returns (st: Scan)
    requires RunChars(START, 0, text) == Ok(base) && Sound(base) && !base.inString && ItemsOk(frame.before)
    requires |base.stack| + DepthAll(frame.before) <= MAX_JSON_ARGS_DEPTH && |base.stack| < MAX_JSON_ARGS_DEPTH
    ensures RunChars(START, 0, text + RenderAll(frame.before) + [Opener(frame.curly)]) == Ok(st)
    ensures Sound(st) && !st.inString && st.stack == base.stack + [Closer(frame.curly) as int]
  {
    var before := RenderAll(frame.before);
    var end := RunAnyItems(base, ByteLen(text), frame.before);
    var mid := base.(rootEnd := end);
    RunCharsConcat(START, 0, text, before);
    RunCharsConcat(START, 0, text + before, [Opener(frame.curly)]);
    RunOne(mid, ByteLen(text + before), Opener(frame.curly));
    StepOpen(mid, ByteLen(text + before), frame.curly);
    st := Pushed(mid, frame.curly);
  }

  /** The scanner after the frames of a context. */
  lemma {:induction false} RunFrames(frames: seq<Frame>) returns (st: Scan)
    requires ContextOk(Context(frames, []))
    ensures RunChars(START, 0, FramesText(frames)) == Ok(st)
    ensures Sound(st) && !st.inString && st.stack == Closers(frames)
    decreases |frames|
  {
    if frames == [] {
      st := START;
    } else {
      var n := |frames| - 1;
      assert n + DepthAll(frames[n].before) <= MAX_JSON_ARGS_DEPTH;
      var base := RunFrames(frames[..n]);
      st := RunFrame(FramesText(frames[..n]), base, frames[n]);
      assert Closers(frames) == Closers(frames[..n]) + [Closer(frames[n].curly) as int];
    }
  }

  lemma RunContext(c: Context) returns (st: Scan)
    requires ContextOk(c)
    ensures RunChars(START, 0, ContextText(c)) == Ok(st)
    ensures Sound(st) && !st.inString && st.stack == Closers(c.frames)
  {
    var base := RunFrames(c.frames);
    var end := RunAnyItems(base, ByteLen(FramesText(c.frames)), c.items);
    RunCharsConcat(START, 0, FramesText(c.frames), RenderAll(c.items));
    st := base.(rootEnd := end);
  }

  /** The verdict decides how the scan ends. */
  lemma RunShown(t: string, v: Verdict)
    requires Shows(t, v)
    ensures match v
            case Ends(c) =>
              && RunChars(START, 0, t).Ok? && !RunChars(START, 0, t).value.inString
              && RunChars(START, 0, t).value.stack == Closers(c.frames)
            case InString(_, _, _) => RunChars(START, 0, t).Ok? && RunChars(START, 0, t).value.inString
            case StrayCloser(_, _, _) => RunChars(START, 0, t) == Err(Unbalanced)
            case OverCap(_, _, _) => RunChars(START, 0, t) == Err(TooDeep)
  {
    var text := ContextText(v.c);
    var st := RunContext(v.c);
    var at := ByteLen(text);
    match v
    case Ends(_) =>
    case InString(c, body, dangling) =>
      RunCharsConcat(START, 0, text, ['"'] + (RenderUnits(body) + Dangling(dangling)));
      RunOpenString(st, at, body, dangling);
    case StrayCloser(c, closer, rest) =>
      RunCharsConcat(START, 0, text, [closer] + rest);
      RunCharsConcat(st, at, [closer], rest);
      RunOne(st, at, closer);
    case OverCap(c, curly, rest) =>
      RunCharsConcat(START, 0, text, [Opener(curly)] + rest);
      RunCharsConcat(st, at, [Opener(curly)], rest);
      RunOne(st, at, Opener(curly));
      StepOpen(st, at, curly);
  }

  lemma RunOpenString(st: Scan, at: nat, body: seq<Unit>, dangling: bool)
    requires Sound(st) && !st.inString && BodyOk(body)
    ensures var r := RunChars(st, at, ['"'] + (RenderUnits(body) + Dangling(dangling)));
            r.Ok? && r.value.inString
  {
    var open := st.(inString := true);
    RunCharsConcat(st, at, ['"'], RenderUnits(body) + Dangling(dangling));
    RunOne(st, at, '"');
    var inner := at + ByteLen(['"']);
    RunCharsConcat(open, inner, RenderUnits(body), Dangling(dangling));
    RunUnits(open, inner, body);
    if dangling {
      RunOne(open, inner + ByteLen(RenderUnits(body)), '\\');
    }
  }

  /** Past the size and root guards, the outcome is the scan's end. */
  lemma OutcomeOfScan(blob: string)
    requires FitsCap(blob) && StartsOpen(Trim(Rust, blob))
    ensures match RunChars(START, 0, Trim(Rust, blob))
            case Err(e) => Outcome(blob) == Err(e)
            case Ok(st) =>
              && (st.inString ==> Outcome(blob) == Err(Unterminated))
              && (!st.inString && st.stack != [] ==> Outcome(blob) == Err(Unbalanced))
  {
    var t := Trim(Rust, blob);
    FirstByte(t);
    BytesRunAsChars(START, 0, t);
  }

  lemma TrailingIsRefused(blob: string, root: Item, more: seq<Item>)
    requires FitsCap(blob) && StartsOpen(Trim(Rust, blob)) && HasTrailing(Trim(Rust, blob), root, more)
    ensures Outcome(blob) == Err(TrailingBytes)
  {
    var t := Trim(Rust, blob);
    var head := Render(root);
    FirstByte(t);
    BytesRunAsChars(START, 0, t);
    RunItem(START, 0, root);
    var st := AfterItem(START, root, ByteLen(head));
    var end := RunAnyItems(st, ByteLen(head), more);
    RunCharsConcat(START, 0, head, RenderAll(more));
    SliceAfter(head, RenderAll(more));
  }

  /** A finished text with nothing open is a document, or has a root group and
      more behind it. */
  lemma RootAndMore(t: string, items: seq<Item>) returns (root: Item, more: seq<Item>)
    requires StartsOpen(t) && t == RenderAll(items) && ItemsOk(items) && DepthAll(items) <= MAX_JSON_ARGS_DEPTH
    requires Trimmed(Rust, t)
    ensures (more == [] && IsDocument(root, t)) || HasTrailing(t, root, more)
  {
    root, more := items[0], items[1..];
    assert Render(root)[0] == t[0];
    if more == [] {
      assert Render(root) + [] == Render(root);
    } else {
      assert Render(more[0]) != [];
      LastIsKept(t, Render(root), RenderAll(more));
      NonBlank(RenderAll(more));
    }
  }

  lemma LastIsKept(t: string, a: string, b: string)
    requires t == a + b && b != []
    ensures t[|t| - 1] == b[|b| - 1]
  {
  }

  lemma TrimsToNothing(s: string)
    requires Trim(Rust, s) == []
    ensures AllSpace(Rust, s)
  {
    var pre, post := TrimShape(Rust, s);
    assert s == pre + post;
  }

  lemma NonBlank(s: string)
    requires s != [] && !IsSpace(Rust, s[|s| - 1])
    ensures Trim(Rust, s) != []
  {
    if Trim(Rust, s) == [] {
      TrimsToNothing(s);
    }
  }

  /** The gate's answer for every blob, on the text: each reason exactly when the
      text gives it, and no reason exactly for a document. */
  lemma ReasonsExactly(blob: string, reason: Reason)
    ensures Outcome(blob) == Err(reason) <==> RefusedFor(blob, reason)
  {
    var t := Trim(Rust, blob);
    if FitsCap(blob) && t != [] {
      FirstByte(t);
      if StartsOpen(t) {
        ReasonOfScan(blob, reason);
      }
    }
  }

  lemma ReasonOfScan(blob: string, reason: Reason)
    requires FitsCap(blob) && StartsOpen(Trim(Rust, blob))
    ensures Outcome(blob) == Err(reason) <==> RefusedFor(blob, reason)
  {
    if RefusedFor(blob, reason) {
      ReasonIsAnswered(blob, reason);
    }
    if Outcome(blob) == Err(reason) {
      AnswerHasReason(blob, reason);
    }
  }

  lemma ShownIsAnswered(blob: string, v: Verdict)
    requires FitsCap(blob) && StartsOpen(Trim(Rust, blob)) && Shows(Trim(Rust, blob), v)
    ensures ShownOutcome(blob, v)
  {
    OutcomeOfScan(blob);
    RunShown(Trim(Rust, blob), v);
  }

  lemma ReasonIsAnswered(blob: string, reason: Reason)
    requires FitsCap(blob) && StartsOpen(Trim(Rust, blob)) && RefusedFor(blob, reason)
    ensures Outcome(blob) == Err(reason)
  {
    var t := Trim(Rust, blob);
    match reason
    case Unterminated =>
      var v :| Shows(t, v) && v.InString?;
      ShownIsAnswered(blob, v);
    case Unbalanced =>
      var v :| Shows(t, v) && (v.StrayCloser? || (v.Ends? && v.c.frames != []));
      ShownIsAnswered(blob, v);
    case TooDeep =>
      var v :| Shows(t, v) && v.OverCap?;
      ShownIsAnswered(blob, v);
    case TrailingBytes =>
      var root, more :| HasTrailing(t, root, more);
      TrailingIsRefused(blob, root, more);
  }

  lemma AnswerHasReason(blob: string, reason: Reason)
    requires FitsCap(blob) && StartsOpen(Trim(Rust, blob)) && Outcome(blob) == Err(reason)
    ensures RefusedFor(blob, reason)
  {
    var t := Trim(Rust, blob);
    var v := ReadText(t);
    ShownIsAnswered(blob, v);
    if v.Ends? && v.c.frames == [] {
      FinishedHasReason(blob, reason, v.c.items);
    }
  }

  lemma FinishedHasReason(blob: string, reason: Reason, items: seq<Item>)
    requires FitsCap(blob) && StartsOpen(Trim(Rust, blob)) && Outcome(blob) == Err(reason)
    requires Shows(Trim(Rust, blob), Ends(Context([], items)))
    ensures RefusedFor(blob, reason)
  {
    var t := Trim(Rust, blob);
    var _, _ := TrimShape(Rust, blob);
    assert FramesText([]) + RenderAll(items) == RenderAll(items);
    var root, more := RootAndMore(t, items);
    if more == [] {
      DocumentIsAccepted(blob, root);
    } else {
      TrailingIsRefused(blob, root, more);
    }
  }

  /** The reason a verdict stands for, if it settles one. */
  ghost predicate ShownOutcome(blob: string, v: Verdict) {
    match v
    case Ends(c) => c.frames != [] ==> Outcome(blob) == Err(Unbalanced)
    case InString(_, _, _) => Outcome(blob) == Err(Unterminated)
    case StrayCloser(_, _, _) => Outcome(blob) == Err(Unbalanced)
    case OverCap(_, _, _) => Outcome(blob) == Err(TooDeep)
  }

  lemma AnswerIsReasoned(blob: string)
    ensures Outcome(blob).Err? ==> RefusedFor(blob, Outcome(blob).error)
  {
    if Outcome(blob).Err? {
      ReasonsExactly(blob, Outcome(blob).error);
    }
  }

  /** A blob has one reason to be refused, or is a document. */
  lemma OneAnswer(blob: string, a: Reason, b: Reason)
    ensures RefusedFor(blob, a) && RefusedFor(blob, b) ==> a == b
    ensures RefusedFor(blob, a) ==> !IsArgsDocument(blob)
  {
    ReasonsExactly(blob, a);
    ReasonsExactly(blob, b);
    GateDecidesGrammar(blob);
  }
}
