/** Strings as sequences of Unicode scalar values: trimming, ASCII lowering,
    UTF-8 lengths, splitting and decimal spelling, with the laws the parsers
    and printers lean on. */
module Text {
  import opened Wrappers

  /** Whose idea of whitespace applies: Python's `str.strip` also strips the
      four information separators U+001C..U+001F. */
  datatype Runtime = Rust | Python

  predicate IsSpace(rt: Runtime, c: char) {
    var n := c as int;
    || 0x09 <= n <= 0x0D || n == 0x20 || n == 0x85 || n == 0xA0 || n == 0x1680
    || 0x2000 <= n <= 0x200A || n == 0x2028 || n == 0x2029 || n == 0x202F
    || n == 0x205F || n == 0x3000
    || (rt.Python? && 0x1C <= n <= 0x1F)
  }

  predicate AllSpace(rt: Runtime, s: string) {
    forall i :: 0 <= i < |s| ==> IsSpace(rt, s[i])
  }

  predicate NoSpace(rt: Runtime, s: string) {
    forall i :: 0 <= i < |s| ==> !IsSpace(rt, s[i])
  }

  function TrimStart(rt: Runtime, s: string): string {
    if s != [] && IsSpace(rt, s[0]) then TrimStart(rt, s[1..]) else s
  }

  function TrimEnd(rt: Runtime, s: string): string {
    if s != [] && IsSpace(rt, s[|s| - 1]) then TrimEnd(rt, s[..|s| - 1]) else s
  }

  function Trim(rt: Runtime, s: string): string {
    TrimEnd(rt, TrimStart(rt, s))
  }

  /** Nothing left to trim. */
  predicate Trimmed(rt: Runtime, s: string) {
    s == [] || (!IsSpace(rt, s[0]) && !IsSpace(rt, s[|s| - 1]))
  }

  lemma {:induction false} TrimStartShape(rt: Runtime, s: string) returns (pre: string)
    ensures s == pre + TrimStart(rt, s) && AllSpace(rt, pre)
    ensures TrimStart(rt, s) == [] || !IsSpace(rt, TrimStart(rt, s)[0])
  {
    if s != [] && IsSpace(rt, s[0]) {
      var p := TrimStartShape(rt, s[1..]);
      pre := [s[0]] + p;
      assert s == [s[0]] + s[1..];
    } else {
      pre := [];
    }
  }

  lemma {:induction false} TrimEndShape(rt: Runtime, s: string) returns (post: string)
    ensures s == TrimEnd(rt, s) + post && AllSpace(rt, post)
    ensures TrimEnd(rt, s) == [] || !IsSpace(rt, TrimEnd(rt, s)[|TrimEnd(rt, s)| - 1])
  {
    if s != [] && IsSpace(rt, s[|s| - 1]) {
      var p := TrimEndShape(rt, s[..|s| - 1]);
      post := p + [s[|s| - 1]];
      assert s == s[..|s| - 1] + [s[|s| - 1]];
    } else {
      post := [];
    }
  }

  /** Trimming removes only whitespace and leaves nothing to trim. */
  lemma TrimShape(rt: Runtime, s: string) returns (pre: string, post: string)
    ensures s == pre + Trim(rt, s) + post
    ensures AllSpace(rt, pre) && AllSpace(rt, post) && Trimmed(rt, Trim(rt, s))
  {
    pre := TrimStartShape(rt, s);
    post := TrimEndShape(rt, TrimStart(rt, s));
    var mid := Trim(rt, s);
    if mid != [] {
      assert TrimStart(rt, s)[0] == mid[0];
    }
  }

  lemma {:induction false} TrimStartSkips(rt: Runtime, pre: string, s: string)
    requires AllSpace(rt, pre)
    ensures TrimStart(rt, pre + s) == TrimStart(rt, s)
  {
    if pre == [] {
      assert pre + s == s;
    } else {
      assert (pre + s)[1..] == pre[1..] + s;
      TrimStartSkips(rt, pre[1..], s);
    }
  }

  lemma {:induction false} TrimEndSkips(rt: Runtime, s: string, post: string)
    requires AllSpace(rt, post)
    ensures TrimEnd(rt, s + post) == TrimEnd(rt, s)
  {
    if post == [] {
      assert s + post == s;
    } else {
      assert (s + post)[..|s + post| - 1] == s + post[..|post| - 1];
      TrimEndSkips(rt, s, post[..|post| - 1]);
    }
  }

  /** The trimmed core is unique: any decomposition into blank margins around a
      core with nothing to trim is the one `Trim` finds. */
  lemma TrimUnique(rt: Runtime, pre: string, mid: string, post: string)
    requires AllSpace(rt, pre) && AllSpace(rt, post) && Trimmed(rt, mid)
    ensures Trim(rt, pre + mid + post) == mid
  {
    assert pre + mid + post == pre + (mid + post);
    TrimStartSkips(rt, pre, mid + post);
    if mid == [] {
      assert mid + post == post;
      assert post + [] == post;
      TrimStartSkips(rt, post, []);
    } else {
      assert TrimStart(rt, mid + post) == mid + post;
      TrimEndSkips(rt, mid, post);
    }
  }

  lemma TrimOfTrimmed(rt: Runtime, s: string)
    requires Trimmed(rt, s)
    ensures Trim(rt, s) == s
  {
    assert [] + s + [] == s;
    TrimUnique(rt, [], s, []);
  }

  lemma TrimIdempotent(rt: Runtime, s: string)
    ensures Trim(rt, Trim(rt, s)) == Trim(rt, s)
  {
    var _, _ := TrimShape(rt, s);
    TrimOfTrimmed(rt, Trim(rt, s));
  }

  lemma TrimPadded(rt: Runtime, pre: string, s: string, post: string)
    requires AllSpace(rt, pre) && AllSpace(rt, post)
    ensures Trim(rt, pre + s + post) == Trim(rt, s)
  {
    var p, q := TrimShape(rt, s);
    var mid := Trim(rt, s);
    assert pre + s + post == (pre + p) + mid + (q + post);
    TrimUnique(rt, pre + p, mid, q + post);
  }

  // ---------------------------------------------------------------- case

  function LowerChar(c: char): char {
    if 'A' <= c <= 'Z' then (c as int + 32) as char else c
  }

  function Lower(s: string): (r: string)
    ensures |r| == |s|
    ensures forall i :: 0 <= i < |s| ==> r[i] == LowerChar(s[i])
  {
    seq(|s|, i requires 0 <= i < |s| => LowerChar(s[i]))
  }

  /** ASCII lowering leaves whitespace and separators alone. */
  lemma LowerCharFixes(c: char)
    ensures LowerChar(LowerChar(c)) == LowerChar(c)
    ensures forall rt :: IsSpace(rt, LowerChar(c)) == IsSpace(rt, c)
    ensures LowerChar(c) == '+' <==> c == '+'
    ensures LowerChar(c) == ':' <==> c == ':'
  {
  }

  predicate IsLower(s: string) {
    forall i :: 0 <= i < |s| ==> !('A' <= s[i] <= 'Z')
  }

  lemma LowerOfLower(s: string)
    requires IsLower(s)
    ensures Lower(s) == s
  {
  }

  lemma LowerIsLower(s: string)
    ensures IsLower(Lower(s))
    ensures Lower(Lower(s)) == Lower(s)
  {
    LowerOfLower(Lower(s));
  }

  lemma LowerConcat(a: string, b: string)
    ensures Lower(a + b) == Lower(a) + Lower(b)
  {
  }

  lemma TrimLower(rt: Runtime, s: string)
    ensures Trim(rt, Lower(s)) == Lower(Trim(rt, s))
  {
    var pre, post := TrimShape(rt, s);
    LowerConcat(pre + Trim(rt, s), post);
    LowerConcat(pre, Trim(rt, s));
    TrimUnique(rt, Lower(pre), Lower(Trim(rt, s)), Lower(post));
  }

  // ---------------------------------------------------------------- UTF-8 length

  function Utf8Len(c: char): nat {
    if c as int < 0x80 then 1 else if c as int < 0x800 then 2 else if c as int < 0x10000 then 3 else 4
  }

  /** Rust's `str::len`: the number of UTF-8 bytes. */
  function ByteLen(s: string): nat {
    if s == [] then 0 else Utf8Len(s[0]) + ByteLen(s[1..])
  }

  lemma {:induction false} ByteLenConcat(a: string, b: string)
    ensures ByteLen(a + b) == ByteLen(a) + ByteLen(b)
  {
    if a == [] {
      assert a + b == b;
    } else {
      assert (a + b)[1..] == a[1..] + b;
      ByteLenConcat(a[1..], b);
    }
  }

  predicate IsAscii(s: string) {
    forall i :: 0 <= i < |s| ==> s[i] as int < 0x80
  }

  lemma {:induction false} ByteLenAscii(s: string)
    requires IsAscii(s)
    ensures ByteLen(s) == |s|
  {
    if s == [] {
    } else {
      ByteLenAscii(s[1..]);
    }
  }

  lemma {:induction false} ByteLenAtLeast(s: string)
    ensures ByteLen(s) >= |s|
  {
    if s == [] {
    } else {
      ByteLenAtLeast(s[1..]);
    }
  }

  lemma {:induction false} ByteLenLower(s: string)
    ensures ByteLen(Lower(s)) == ByteLen(s)
  {
    if s == [] {
    } else {
      assert Lower(s)[1..] == Lower(s[1..]);
      ByteLenLower(s[1..]);
    }
  }

  // ---------------------------------------------------------------- splitting

  predicate Lacks(s: string, c: char) {
    forall i :: 0 <= i < |s| ==> s[i] != c
  }

  /** Rust's `str::split(c)`: one more part than there are separators. */
  function Split(s: string, c: char): (parts: seq<string>)
    ensures |parts| > 0
  {
    if s == [] then [[]]
    else if s[0] == c then [[]] + Split(s[1..], c)
    else
      var rest := Split(s[1..], c);
      [[s[0]] + rest[0]] + rest[1..]
  }

  function Join(parts: seq<string>, c: char): string
    requires |parts| > 0
  {
    if |parts| == 1 then parts[0] else parts[0] + [c] + Join(parts[1..], c)
  }

  lemma {:induction false} SplitOfLacking(s: string, c: char)
    requires Lacks(s, c)
    ensures Split(s, c) == [s]
  {
    if s == [] {
    } else {
      SplitOfLacking(s[1..], c);
      assert s == [s[0]] + s[1..];
    }
  }

  lemma {:induction false} SplitAtSeparator(a: string, c: char, b: string)
    requires Lacks(a, c)
    ensures Split(a + [c] + b, c) == [a] + Split(b, c)
  {
    var s := a + [c] + b;
    if a == [] {
      assert s[1..] == b;
    } else {
      assert s[1..] == a[1..] + [c] + b;
      SplitAtSeparator(a[1..], c, b);
      assert a == [a[0]] + a[1..];
    }
  }

  lemma {:induction false} SplitOfJoin(parts: seq<string>, c: char)
    requires |parts| > 0
    requires forall i :: 0 <= i < |parts| ==> Lacks(parts[i], c)
    ensures Split(Join(parts, c), c) == parts
  {
    if |parts| == 1 {
      SplitOfLacking(parts[0], c);
    } else {
      SplitAtSeparator(parts[0], c, Join(parts[1..], c));
      SplitOfJoin(parts[1..], c);
      assert parts == [parts[0]] + parts[1..];
    }
  }

  lemma {:induction false} JoinOfSplit(s: string, c: char)
    ensures Join(Split(s, c), c) == s
  {
    if s == [] {
    } else {
      JoinOfSplit(s[1..], c);
      var rest := Split(s[1..], c);
      if s[0] == c {
        assert ([[]] + rest)[1..] == rest;
      } else if |rest| > 1 {
        assert ([[s[0]] + rest[0]] + rest[1..])[1..] == rest[1..];
      }
    }
  }

  lemma {:induction false} JoinConcat(a: seq<string>, b: seq<string>, c: char)
    requires a != [] && b != []
    ensures Join(a + b, c) == Join(a, c) + [c] + Join(b, c)
  {
    if |a| == 1 {
      assert (a + b)[1..] == b;
    } else {
      assert (a + b)[1..] == a[1..] + b;
      JoinConcat(a[1..], b, c);
    }
  }

  lemma {:induction false} SplitLower(s: string)
    ensures Split(Lower(s), '+') == Map(Lower, Split(s, '+'))
  {
    if s == [] {
    } else {
      LowerCharFixes(s[0]);
      assert Lower(s)[1..] == Lower(s[1..]);
      SplitLower(s[1..]);
      var r := Split(s[1..], '+');
      if s[0] == '+' {
        MapCons(Lower, [], r);
      } else {
        MapCons(Lower, [s[0]] + r[0], r[1..]);
        assert [r[0]] + r[1..] == r;
        MapCons(Lower, r[0], r[1..]);
        assert Lower([s[0]] + r[0]) == [LowerChar(s[0])] + Lower(r[0]);
      }
    }
  }

  lemma {:induction false} SplitPartsLack(s: string, c: char)
    ensures forall i :: 0 <= i < |Split(s, c)| ==> Lacks(Split(s, c)[i], c)
  {
    if s == [] {
    } else {
      SplitPartsLack(s[1..], c);
    }
  }

  lemma {:induction false} SplitPadStart(pre: string, s: string, c: char)
    requires Lacks(pre, c)
    ensures Split(pre + s, c) == [pre + Split(s, c)[0]] + Split(s, c)[1..]
  {
    var parts := Split(s, c);
    if pre == [] {
      assert pre + s == s && pre + parts[0] == parts[0];
    } else {
      assert (pre + s)[1..] == pre[1..] + s;
      SplitPadStart(pre[1..], s, c);
      assert [pre[0]] + (pre[1..] + parts[0]) == pre + parts[0];
    }
  }

  function Init(parts: seq<string>): seq<string>
    requires |parts| > 0
  {
    parts[..|parts| - 1]
  }

  function Last(parts: seq<string>): string
    requires |parts| > 0
  {
    parts[|parts| - 1]
  }

  /** How one more character in front changes a split. */
  function Push(x: char, c: char, r: seq<string>): (p: seq<string>)
    requires |r| > 0
    ensures |p| > 0
  {
    if x == c then [[]] + r else [[x] + r[0]] + r[1..]
  }

  lemma PushPadded(x: char, c: char, r: seq<string>, post: string)
    requires |r| > 0
    ensures Push(x, c, Init(r) + [Last(r) + post]) == Init(Push(x, c, r)) + [Last(Push(x, c, r)) + post]
  {
    var n := |r| - 1;
    var padded := Init(r) + [Last(r) + post];
    if x != c && n == 0 {
      assert padded[0] == r[0] + post && padded[1..] == [];
      assert [x] + (r[0] + post) == [x] + r[0] + post;
    }
  }

  lemma {:induction false} SplitPadEnd(s: string, post: string, c: char)
    requires Lacks(post, c)
    ensures Split(s + post, c) == Init(Split(s, c)) + [Last(Split(s, c)) + post]
  {
    if s == [] {
      assert s + post == post && [] + post == post;
      SplitOfLacking(post, c);
    } else {
      assert (s + post)[1..] == s[1..] + post;
      SplitPadEnd(s[1..], post, c);
      PushPadded(s[0], c, Split(s[1..], c), post);
    }
  }

  /** The offset of the first `c`, or the length when there is none. */
  function IndexOf(s: string, c: char): (i: nat)
    ensures i <= |s|
    ensures i < |s| ==> s[i] == c
    ensures forall j :: 0 <= j < i ==> s[j] != c
  {
    if s == [] || s[0] == c then 0 else 1 + IndexOf(s[1..], c)
  }

  lemma IndexOfIs(s: string, c: char, i: nat)
    requires i <= |s| && (i < |s| ==> s[i] == c)
    requires forall j :: 0 <= j < i ==> s[j] != c
    ensures IndexOf(s, c) == i
  {
  }

  /** Rust's `split_once(c)`. */
  function SplitOnce(s: string, c: char): Option<(string, string)> {
    var i := IndexOf(s, c);
    if i == |s| then None else Some((s[..i], s[i + 1..]))
  }

  /** The offset of the first whitespace, or the length when there is none. */
  function FirstSpace(rt: Runtime, s: string): (i: nat)
    ensures i <= |s|
    ensures i < |s| ==> IsSpace(rt, s[i])
    ensures forall j :: 0 <= j < i ==> !IsSpace(rt, s[j])
  {
    if s == [] || IsSpace(rt, s[0]) then 0 else 1 + FirstSpace(rt, s[1..])
  }

  lemma FirstSpaceIs(rt: Runtime, s: string, i: nat)
    requires i <= |s| && (i < |s| ==> IsSpace(rt, s[i]))
    requires forall j :: 0 <= j < i ==> !IsSpace(rt, s[j])
    ensures FirstSpace(rt, s) == i
  {
  }

  /** Rust's `split_whitespace`. */
  function Words(s: string): seq<string>
    decreases |s|
  {
    if s == [] then []
    else if IsSpace(Rust, s[0]) then Words(s[1..])
    else
      var i := FirstSpace(Rust, s);
      [s[..i]] + Words(s[i..])
  }

  // ---------------------------------------------------------------- decimals

  predicate IsDigit(c: char) { '0' <= c <= '9' }

  predicate AllDigits(s: string) {
    forall i :: 0 <= i < |s| ==> IsDigit(s[i])
  }

  function DigitValue(c: char): nat
    requires IsDigit(c)
  {
    c as int - '0' as int
  }

  function DecimalValue(s: string): nat
    requires AllDigits(s)
  {
    if s == [] then 0 else 10 * DecimalValue(s[..|s| - 1]) + DigitValue(s[|s| - 1])
  }

  function Digit(n: nat): char
    requires n < 10
  {
    (n + '0' as int) as char
  }

  /** The decimal spelling a formatter writes: no sign, no leading zero. */
  function Decimal(n: nat): (s: string)
    ensures |s| > 0 && AllDigits(s)
  {
    if n < 10 then [Digit(n)] else Decimal(n / 10) + [Digit(n % 10)]
  }

  lemma {:induction false} DecimalRoundTrip(n: nat)
    ensures DecimalValue(Decimal(n)) == n
  {
    if n < 10 {
      assert Decimal(n)[..0] == [];
    } else {
      DecimalRoundTrip(n / 10);
      assert Decimal(n)[..|Decimal(n)| - 1] == Decimal(n / 10);
    }
  }

  lemma DecimalShort(n: nat)
    requires n < 1000
    ensures |Decimal(n)| <= 3
  {
    assert n / 10 < 100 && n / 10 / 10 < 10;
    if n >= 10 {
      assert |Decimal(n)| == |Decimal(n / 10)| + 1;
      if n / 10 >= 10 {
        assert |Decimal(n / 10)| == |Decimal(n / 10 / 10)| + 1;
      }
    }
  }

  /** Rust's unsigned integer parse, with `limit` the type's largest value: an
      optional leading '+', then at least one digit, refused on overflow. */
  function ParseUnsigned(s: string, limit: nat): Option<nat> {
    var digits := if s != [] && s[0] == '+' then s[1..] else s;
    if digits == [] || !AllDigits(digits) || DecimalValue(digits) > limit then None
    else Some(DecimalValue(digits))
  }

  lemma ParseOfDecimal(n: nat, limit: nat)
    requires n <= limit
    ensures ParseUnsigned(Decimal(n), limit) == Some(n)
  {
    DecimalRoundTrip(n);
    assert IsDigit(Decimal(n)[0]);
  }

  // ---------------------------------------------------------------- numbers, however written

  predicate AllZeros(s: string) { forall i :: 0 <= i < |s| ==> s[i] == '0' }

  /** `s` writes the number `n`: a plus sign or none, zeros, and its decimals. */
  ghost predicate NumberWord(s: string, n: nat) {
    exists sign, zeros :: (sign == "" || sign == "+") && AllZeros(zeros) && s == sign + (zeros + Decimal(n))
  }

  lemma {:induction false} ZerosAddNothing(zeros: string, digits: string)
    requires AllZeros(zeros) && AllDigits(digits)
    ensures AllDigits(zeros + digits) && DecimalValue(zeros + digits) == DecimalValue(digits)
    decreases |zeros| + |digits|
  {
    var s := zeros + digits;
    if digits == [] {
      assert s == zeros;
      if zeros != [] {
        var init := zeros[..|zeros| - 1];
        assert init + [] == init;
        ZerosAddNothing(init, []);
      }
    } else {
      var init := digits[..|digits| - 1];
      ZerosAddNothing(zeros, init);
      assert s[..|s| - 1] == zeros + init;
    }
  }

  /** Any digits are zeros in front of the decimals of their value. */
  lemma {:induction false} DigitsAreDecimal(s: string) returns (zeros: string)
    requires s != [] && AllDigits(s)
    ensures AllZeros(zeros) && s == zeros + Decimal(DecimalValue(s))
    decreases |s|
  {
    var init, last := s[..|s| - 1], s[|s| - 1];
    assert s == init + [last];
    var d := DigitValue(last);
    if init == [] {
      zeros := [];
      assert DecimalValue(s) == d;
    } else {
      var front := DigitsAreDecimal(init);
      var v := DecimalValue(init);
      if v == 0 {
        zeros := init;
        assert Decimal(v) == ['0'];
      } else {
        zeros := front;
        assert (10 * v + d) / 10 == v && (10 * v + d) % 10 == d;
      }
    }
  }

  lemma ReadNumberIsWritten(s: string, limit: nat, n: nat)
    requires ParseUnsigned(s, limit) == Some(n)
    ensures n <= limit && NumberWord(s, n)
  {
    var sign := if s != [] && s[0] == '+' then "+" else "";
    var digits := s[|sign|..];
    assert s == sign + digits;
    var zeros := DigitsAreDecimal(digits);
  }

  lemma SignedDigitsRead(sign: string, digits: string, limit: nat)
    requires (sign == "" || sign == "+") && digits != [] && AllDigits(digits) && DecimalValue(digits) <= limit
    ensures ParseUnsigned(sign + digits, limit) == Some(DecimalValue(digits))
  {
    var s := sign + digits;
    assert IsDigit(digits[0]);
    if sign == "" {
      assert s == digits;
    } else {
      assert s[1..] == digits;
    }
  }

  /** A number within the limit is read from exactly the ways to write it. */
  lemma NumberExactly(s: string, limit: nat, n: nat)
    ensures ParseUnsigned(s, limit) == Some(n) <==> n <= limit && NumberWord(s, n)
  {
    if ParseUnsigned(s, limit) == Some(n) {
      ReadNumberIsWritten(s, limit, n);
    } else if n <= limit && NumberWord(s, n) {
      var sign, zeros :| (sign == "" || sign == "+") && AllZeros(zeros) && s == sign + (zeros + Decimal(n));
      ZerosAddNothing(zeros, Decimal(n));
      DecimalRoundTrip(n);
      SignedDigitsRead(sign, zeros + Decimal(n), limit);
    }
  }

  /** The character at `i`, as a number; 0 past the end. */
  function CharAt(s: string, i: nat): int { if i < |s| then s[i] as int else 0 }

  // ---------------------------------------------------------------- capitals

  /** The same character, or a capital and its small letter. */
  predicate SameLetter(a: char, b: char) {
    || a == b
    || ('A' <= a <= 'Z' && b as int == a as int + 32)
    || ('A' <= b <= 'Z' && a as int == b as int + 32)
  }

  predicate SameLetters(a: string, b: string) {
    |a| == |b| && forall i :: 0 <= i < |a| ==> SameLetter(a[i], b[i])
  }

  /** Lowering forgets capitals and nothing else. */
  lemma LowerIsSameLetters(a: string, b: string)
    ensures Lower(a) == Lower(b) <==> SameLetters(a, b)
  {
    forall x, y ensures LowerChar(x) == LowerChar(y) <==> SameLetter(x, y) {
    }
    if Lower(a) == Lower(b) {
      forall i | 0 <= i < |a| ensures SameLetter(a[i], b[i]) {
        assert Lower(a)[i] == Lower(b)[i];
      }
    }
  }
}
