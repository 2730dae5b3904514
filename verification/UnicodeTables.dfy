/** The Unicode range tables of scripts/generate-unicode-tables.py: sort, merge
    and reject overlap, then binary search in the emitted tables. */
module UnicodeTables {
  import opened Wrappers
  import opened Ordering

  /** Code points `start..end`, both ends included, of one property class. */
  datatype Range = Range(start: nat, end: nat, prop: string)

  predicate WellFormed(r: Range) { r.start <= r.end }

  predicate AllWellFormed(s: seq<Range>) {
    forall i :: 0 <= i < |s| ==> WellFormed(s[i])
  }

  predicate Overlap(a: Range, b: Range) { a.start <= b.end && b.start <= a.end }

  predicate Disjoint(s: seq<Range>) {
    forall i, j :: 0 <= i < j < |s| ==> !Overlap(s[i], s[j])
  }

  predicate Holds(r: Range, cp: nat, prop: string) {
    r.start <= cp <= r.end && r.prop == prop
  }

  /** The class map a range list denotes. */
  predicate Covers(s: seq<Range>, cp: nat, prop: string) {
    exists r :: r in s && Holds(r, cp, prop)
  }

  ghost predicate SameMap(a: seq<Range>, b: seq<Range>) {
    forall cp, prop :: Covers(a, cp, prop) <==> Covers(b, cp, prop)
  }

  /** `b` continues `a` in the same class: the merge makes one range of them. */
  predicate Joins(a: Range, b: Range) { a.prop == b.prop && a.end + 1 == b.start }

  /** The normal form: ascending, disjoint, and no two ranges of one class
      touching. */
  predicate Canonical(m: seq<Range>) {
    && AllWellFormed(m)
    && (forall i, j :: 0 <= i < j < |m| ==> m[i].end < m[j].start && !Joins(m[i], m[j]))
  }

  /** Python's order on the (start, end, property) tuples. */
  predicate RangeLe(a: Range, b: Range) {
    || a.start < b.start
    || (a.start == b.start && (a.end < b.end || (a.end == b.end && StrLe(a.prop, b.prop))))
  }

  function Absorb(m: seq<Range>, x: Range): seq<Range> {
    if m != [] && Joins(m[|m| - 1], x)
    then m[..|m| - 1] + [Range(m[|m| - 1].start, x.end, x.prop)]
    else m + [x]
  }

  function Coalesce(s: seq<Range>): seq<Range> {
    if s == [] then [] else Absorb(Coalesce(s[..|s| - 1]), s[|s| - 1])
  }

  predicate ClashAt(m: seq<Range>, k: nat) { k + 1 < |m| && m[k + 1].start <= m[k].end }

  predicate Clashes(m: seq<Range>) { exists k :: 0 <= k < |m| && ClashAt(m, k) }

  /** What `merge_ranges` computes: the merged table, or a refusal. */
  function MergeOf(ranges: seq<Range>): Option<seq<Range>> {
    var m := Coalesce(SortBy(RangeLe, ranges));
    if Clashes(m) then None else Some(m)
  }

  /** Neighbours `k` and `k + 1` clash and none before them do. */
  predicate FirstClash(m: seq<Range>, k: nat) {
    ClashAt(m, k) && forall i :: 0 <= i < k ==> !ClashAt(m, i)
  }

  ghost predicate IsFirstClash(m: seq<Range>, pair: (Range, Range)) {
    exists k: nat :: FirstClash(m, k) && pair == (m[k], m[k + 1])
  }

  /** `merge_ranges`: an error carries the first clashing pair of neighbours. */
  method MergeRanges(ranges: seq<Range>) returns (r: Result<seq<Range>, (Range, Range)>)
    ensures r.Ok? ==> MergeOf(ranges) == Some(r.value)
    ensures r.Err? ==> MergeOf(ranges) == None && IsFirstClash(Coalesce(SortBy(RangeLe, ranges)), r.error)
  {
    var merged: seq<Range> := [];
    var sorted := SortBy(RangeLe, ranges);
    for i := 0 to |sorted|
      invariant merged == Coalesce(sorted[..i])
    {
      var x := sorted[i];
      CoalesceSnoc(sorted[..i], x);
      assert sorted[..i] + [x] == sorted[..i + 1];
      if merged != [] && Joins(merged[|merged| - 1], x) {
        merged := merged[..|merged| - 1] + [Range(merged[|merged| - 1].start, x.end, x.prop)];
      } else {
        merged := merged + [x];
      }
    }
    assert sorted[..|sorted|] == sorted;
    r := RejectOverlaps(merged);
  }

  /** Its second loop: the first pair of clashing neighbours, if any. */
  method RejectOverlaps(m: seq<Range>) returns (r: Result<seq<Range>, (Range, Range)>)
    ensures r.Ok? ==> !Clashes(m) && r.value == m
    ensures r.Err? ==> Clashes(m) && IsFirstClash(m, r.error)
  {
    var k := 0;
    while k + 1 < |m|
      invariant forall i :: 0 <= i < k ==> !ClashAt(m, i)
    {
      if m[k + 1].start <= m[k].end {
        assert FirstClash(m, k);
        return Err((m[k], m[k + 1]));
      }
      k := k + 1;
    }
    return Ok(m);
  }

  lemma CoalesceSnoc(t: seq<Range>, x: Range)
    ensures Coalesce(t + [x]) == Absorb(Coalesce(t), x)
  {
    assert (t + [x])[..|t + [x]| - 1] == t;
  }

  // ---------------------------------------------------------------- sorting

  lemma RangeOrder()
    ensures TotalPreorder(RangeLe)
  {
    forall x, y ensures RangeLe(x, y) || RangeLe(y, x) {
      StrLeTotal(x.prop, y.prop);
    }
    forall x, y, z | RangeLe(x, y) && RangeLe(y, z) ensures RangeLe(x, z) {
      if StrLe(x.prop, y.prop) && StrLe(y.prop, z.prop) {
        StrLeTransitive(x.prop, y.prop, z.prop);
      }
    }
  }

  predicate ClearOf(x: Range, s: seq<Range>) {
    forall r :: r in s ==> !Overlap(x, r)
  }

  lemma DisjointCons(x: Range, s: seq<Range>)
    ensures Disjoint([x] + s) <==> ClearOf(x, s) && Disjoint(s)
  {
    var t := [x] + s;
    if Disjoint(t) {
      forall r | r in s ensures !Overlap(x, r) {
        var j :| 0 <= j < |s| && s[j] == r;
        assert t[0] == x && t[j + 1] == r;
      }
      forall i, j | 0 <= i < j < |s| ensures !Overlap(s[i], s[j]) {
        assert t[i + 1] == s[i] && t[j + 1] == s[j];
      }
    }
  }

  lemma ClearOfCons(x: Range, h: Range, t: seq<Range>)
    ensures ClearOf(x, [h] + t) <==> !Overlap(h, x) && ClearOf(x, t)
  {
    assert h in [h] + t;
  }

  lemma ClearOfInsert(h: Range, x: Range, s: seq<Range>)
    ensures ClearOf(h, Insert(RangeLe, x, s)) <==> !Overlap(h, x) && ClearOf(h, s)
  {
    InsertMembers(RangeLe, x, s);
  }

  lemma {:induction false} InsertDisjoint(x: Range, s: seq<Range>)
    ensures Disjoint(Insert(RangeLe, x, s)) <==> ClearOf(x, s) && Disjoint(s)
  {
    if s == [] || RangeLe(x, s[0]) {
      DisjointCons(x, s);
    } else {
      var h, t := s[0], s[1..];
      InsertDisjoint(x, t);
      DisjointCons(h, Insert(RangeLe, x, t));
      ClearOfInsert(h, x, t);
      DisjointCons(h, t);
      ClearOfCons(x, h, t);
      assert s == [h] + t;
    }
  }

  lemma {:induction false} SortDisjoint(s: seq<Range>)
    ensures Disjoint(SortBy(RangeLe, s)) <==> Disjoint(s)
  {
    if s == [] {
    } else {
      var rest := SortBy(RangeLe, s[1..]);
      SortDisjoint(s[1..]);
      InsertDisjoint(s[0], rest);
      DisjointCons(s[0], rest);
      DisjointCons(s[0], s[1..]);
      SortMembers(RangeLe, s[1..]);
      assert s == [s[0]] + s[1..];
    }
  }

  // ---------------------------------------------------------------- merging

  predicate Ascending(s: seq<Range>) {
    forall i, j :: 0 <= i < j < |s| ==> s[i].start <= s[j].start
  }

  predicate Apart(s: seq<Range>) {
    forall i, j :: 0 <= i < j < |s| ==> s[i].end < s[j].start
  }

  lemma AbsorbCovers(m: seq<Range>, x: Range, cp: nat, prop: string)
    requires AllWellFormed(m) && WellFormed(x)
    ensures Covers(Absorb(m, x), cp, prop) <==> Covers(m, cp, prop) || Holds(x, cp, prop)
  {
    var a := Absorb(m, x);
    if m != [] && Joins(m[|m| - 1], x) {
      var last := m[|m| - 1];
      var init := m[..|m| - 1];
      var joined := Range(last.start, x.end, x.prop);
      assert m == init + [last] && a == init + [joined];
      assert Holds(joined, cp, prop) <==> Holds(last, cp, prop) || Holds(x, cp, prop);
      assert forall r :: r in m <==> r in init || r == last;
      assert forall r :: r in a <==> r in init || r == joined;
    } else {
      assert forall r :: r in a <==> r in m || r == x;
    }
  }

  lemma AbsorbKeepsClash(m: seq<Range>, x: Range)
    requires Clashes(m)
    ensures Clashes(Absorb(m, x))
  {
    var k :| 0 <= k < |m| && ClashAt(m, k);
    assert ClashAt(Absorb(m, x), k);
  }

  /** Absorbing a range that starts past the table keeps it canonical; one that
      does not leaves a clash. */
  lemma AbsorbShape(m: seq<Range>, x: Range)
    requires Canonical(m) && WellFormed(x)
    ensures m == [] || m[|m| - 1].end < x.start ==> Canonical(Absorb(m, x))
    ensures m != [] && x.start <= m[|m| - 1].end ==> Clashes(Absorb(m, x))
  {
    if m != [] && x.start <= m[|m| - 1].end {
      assert ClashAt(m + [x], |m| - 1);
    }
  }

  lemma AbsorbEnd(m: seq<Range>, x: Range)
    ensures Absorb(m, x) != [] && Absorb(m, x)[|Absorb(m, x)| - 1].end == x.end
  {
  }

  lemma AbsorbWellFormed(m: seq<Range>, x: Range)
    requires AllWellFormed(m) && WellFormed(x)
    ensures AllWellFormed(Absorb(m, x))
  {
  }

  lemma {:induction false} CoalesceWellFormed(s: seq<Range>)
    requires AllWellFormed(s)
    ensures AllWellFormed(Coalesce(s))
  {
    if s == [] {
    } else {
      CoalesceWellFormed(s[..|s| - 1]);
      AbsorbWellFormed(Coalesce(s[..|s| - 1]), s[|s| - 1]);
    }
  }

  /** The table's last end follows the input. */
  lemma CoalesceEnd(s: seq<Range>)
    ensures s == [] <==> Coalesce(s) == []
    ensures s != [] ==> Coalesce(s)[|Coalesce(s)| - 1].end == s[|s| - 1].end
  {
    if s != [] {
      AbsorbEnd(Coalesce(s[..|s| - 1]), s[|s| - 1]);
    }
  }

  /** Over a sorted prefix: no overlap gives the normal form, and any overlap
      leaves a clash behind. */
  lemma {:induction false} CoalesceShape(s: seq<Range>)
    requires AllWellFormed(s) && Ascending(s)
    ensures if Apart(s) then Canonical(Coalesce(s)) else Clashes(Coalesce(s))
  {
    if s == [] {
    } else {
      var t, x := s[..|s| - 1], s[|s| - 1];
      CoalesceShape(t);
      CoalesceEnd(t);
      ApartSnoc(s);
      if Apart(t) {
        AbsorbShape(Coalesce(t), x);
      } else {
        AbsorbKeepsClash(Coalesce(t), x);
      }
    }
  }

  /** In a sorted list only the last gap can newly close. */
  lemma ApartSnoc(s: seq<Range>)
    requires AllWellFormed(s) && Ascending(s) && s != []
    ensures Apart(s) <==> Apart(s[..|s| - 1]) && (|s| > 1 ==> s[|s| - 2].end < s[|s| - 1].start)
  {
    var n := |s| - 1;
    var t := s[..n];
    if Apart(t) && n > 0 && s[n - 1].end < s[n].start {
      forall i, j | 0 <= i < j < |s| ensures s[i].end < s[j].start {
        if j == n && i < n - 1 {
          assert t[i].end < t[n - 1].start <= s[n].start;
        } else if j < n {
          assert t[i].end < t[j].start;
        }
      }
    }
    if Apart(s) {
      forall i, j | 0 <= i < j < |t| ensures t[i].end < t[j].start {
        assert s[i].end < s[j].start;
      }
    }
  }

  lemma CoversSnoc(t: seq<Range>, x: Range, cp: nat, prop: string)
    ensures Covers(t + [x], cp, prop) <==> Covers(t, cp, prop) || Holds(x, cp, prop)
  {
    assert forall r :: r in t + [x] <==> r in t || r == x;
  }

  lemma {:induction false} CoalesceCovers(s: seq<Range>, cp: nat, prop: string)
    requires AllWellFormed(s)
    ensures Covers(Coalesce(s), cp, prop) <==> Covers(s, cp, prop)
  {
    if s == [] {
      assert Coalesce(s) == [];
    } else {
      var t, x := s[..|s| - 1], s[|s| - 1];
      CoalesceWellFormed(t);
      CoalesceCovers(t, cp, prop);
      AbsorbCovers(Coalesce(t), x, cp, prop);
      CoversSnoc(t, x, cp, prop);
      assert s == t + [x];
    }
  }

  lemma SortedInput(ranges: seq<Range>) returns (s: seq<Range>)
    requires AllWellFormed(ranges)
    ensures s == SortBy(RangeLe, ranges) && AllWellFormed(s) && Ascending(s)
    ensures SameMap(s, ranges)
    ensures Apart(s) <==> Disjoint(ranges)
  {
    s := SortBy(RangeLe, ranges);
    RangeOrder();
    SortSorts(RangeLe, ranges);
    SortMembers(RangeLe, ranges);
    SortDisjoint(ranges);
    forall i | 0 <= i < |s| ensures WellFormed(s[i]) {
      assert s[i] in ranges;
    }
    forall i, j | 0 <= i < j < |s| ensures s[i].start <= s[j].start {
      assert RangeLe(s[i], s[j]);
    }
    if Disjoint(s) {
      forall i, j | 0 <= i < j < |s| ensures s[i].end < s[j].start {
        assert !Overlap(s[i], s[j]) && WellFormed(s[j]);
      }
    }
    if Apart(s) {
      forall i, j | 0 <= i < j < |s| ensures !Overlap(s[i], s[j]) {
      }
    }
  }

  /** `merge_ranges` refuses exactly the well-formed inputs in which two ranges
      overlap; otherwise its table is in normal form and denotes the same map. */
  lemma MergeDecides(ranges: seq<Range>)
    requires AllWellFormed(ranges)
    ensures MergeOf(ranges).None? <==> !Disjoint(ranges)
    ensures MergeOf(ranges).Some? ==>
              Canonical(MergeOf(ranges).value) && SameMap(MergeOf(ranges).value, ranges)
  {
    var s := SortedInput(ranges);
    var m := Coalesce(s);
    CoalesceShape(s);
    forall cp, prop ensures Covers(m, cp, prop) <==> Covers(ranges, cp, prop) {
      CoalesceCovers(s, cp, prop);
    }
  }

  // ---------------------------------------------------------------- normal form

  lemma CoveredFrom(m: seq<Range>, cp: nat, prop: string) returns (i: nat)
    requires Covers(m, cp, prop)
    ensures i < |m| && Holds(m[i], cp, prop)
  {
    var r :| r in m && Holds(r, cp, prop);
    i :| 0 <= i < |m| && m[i] == r;
  }

  lemma CoversAt(m: seq<Range>, i: nat, cp: nat)
    requires i < |m| && m[i].start <= cp <= m[i].end
    ensures Covers(m, cp, m[i].prop)
  {
    assert m[i] in m && Holds(m[i], cp, m[i].prop);
  }

  /** The heads of two canonical tables of one map begin together, agree in
      class, and the first cannot stop short. */
  lemma HeadReaches(a: seq<Range>, b: seq<Range>)
    requires Canonical(a) && Canonical(b) && SameMap(a, b) && a != [] && b != []
    ensures a[0].start >= b[0].start
    ensures a[0].start == b[0].start ==> a[0].prop == b[0].prop && a[0].end >= b[0].end
  {
    CoversAt(a, 0, a[0].start);
    var i := CoveredFrom(b, a[0].start, a[0].prop);
    assert i > 0 ==> b[0].end < b[i].start;
    if a[0].start == b[0].start {
      assert i == 0;
      if a[0].end < b[0].end {
        var cp := a[0].end + 1;
        CoversAt(b, 0, cp);
        var k := CoveredFrom(a, cp, b[0].prop);
      }
    }
  }

  lemma TailMap(a: seq<Range>, b: seq<Range>)
    requires Canonical(a) && Canonical(b) && SameMap(a, b) && a != [] && b != [] && a[0] == b[0]
    ensures SameMap(a[1..], b[1..])
  {
    forall cp, prop ensures Covers(a[1..], cp, prop) <==> Covers(b[1..], cp, prop) {
      TailCovers(a, cp, prop);
      TailCovers(b, cp, prop);
    }
  }

  lemma TailCovers(a: seq<Range>, cp: nat, prop: string)
    requires Canonical(a) && a != []
    ensures Covers(a[1..], cp, prop) <==> Covers(a, cp, prop) && cp > a[0].end
  {
    if Covers(a[1..], cp, prop) {
      var i := CoveredFrom(a[1..], cp, prop);
      assert a[i + 1] == a[1..][i];
      assert a[0].end < a[i + 1].start;
      CoversAt(a, i + 1, cp);
    }
    if Covers(a, cp, prop) && cp > a[0].end {
      var i := CoveredFrom(a, cp, prop);
      assert a[1..][i - 1] == a[i];
      CoversAt(a[1..], i - 1, cp);
    }
  }

  lemma CanonicalTail(a: seq<Range>)
    requires Canonical(a) && a != []
    ensures Canonical(a[1..])
  {
    var t := a[1..];
    forall i, j | 0 <= i < j < |t| ensures t[i].end < t[j].start && !Joins(t[i], t[j]) {
      assert t[i] == a[i + 1] && t[j] == a[j + 1];
    }
  }

  /** A class map has one canonical table. */
  lemma {:induction false} CanonicalUnique(a: seq<Range>, b: seq<Range>)
    requires Canonical(a) && Canonical(b) && SameMap(a, b)
    ensures a == b
  {
    if a == [] && b != [] {
      CoversAt(b, 0, b[0].start);
      var i := CoveredFrom(a, b[0].start, b[0].prop);
    } else if a != [] && b == [] {
      CoversAt(a, 0, a[0].start);
      var i := CoveredFrom(b, a[0].start, a[0].prop);
    } else if a != [] {
      HeadReaches(a, b);
      HeadReaches(b, a);
      TailMap(a, b);
      CanonicalTail(a);
      CanonicalTail(b);
      CanonicalUnique(a[1..], b[1..]);
      assert a == [a[0]] + a[1..] && b == [b[0]] + b[1..];
    }
  }

  /** Order and splitting of the input never show in the merged table. */
  lemma MergeNormalForm(a: seq<Range>, b: seq<Range>)
    requires AllWellFormed(a) && AllWellFormed(b) && Disjoint(a) && Disjoint(b)
    requires SameMap(a, b)
    ensures MergeOf(a).Some? && MergeOf(a) == MergeOf(b)
  {
    MergeDecides(a);
    MergeDecides(b);
    CanonicalUnique(MergeOf(a).value, MergeOf(b).value);
  }

  /** A canonical table is its own merge, so merging twice changes nothing. */
  lemma MergeOfCanonical(m: seq<Range>)
    requires Canonical(m)
    ensures MergeOf(m) == Some(m)
  {
    forall i, j | 0 <= i < j < |m| ensures !Overlap(m[i], m[j]) {
    }
    MergeDecides(m);
    CanonicalUnique(MergeOf(m).value, m);
  }

  lemma MergeIdempotent(ranges: seq<Range>)
    requires AllWellFormed(ranges) && MergeOf(ranges).Some?
    ensures MergeOf(MergeOf(ranges).value) == MergeOf(ranges)
  {
    MergeDecides(ranges);
    MergeOfCanonical(MergeOf(ranges).value);
  }

  // ---------------------------------------------------------------- select and count

  function OfClass(s: seq<Range>, prop: string): seq<Range> {
    if s == [] then []
    else if s[0].prop == prop then [s[0]] + OfClass(s[1..], prop)
    else OfClass(s[1..], prop)
  }

  /** `select`: keep one class and merge again. */
  function Select(s: seq<Range>, prop: string): Option<seq<Range>> {
    MergeOf(OfClass(s, prop))
  }

  lemma {:induction false} OfClassMembers(s: seq<Range>, prop: string)
    ensures forall r :: r in OfClass(s, prop) <==> r in s && r.prop == prop
  {
    if s == [] {
    } else {
      OfClassMembers(s[1..], prop);
      assert s == [s[0]] + s[1..];
    }
  }

  lemma ConsCanonical(x: Range, m: seq<Range>)
    requires Canonical(m) && WellFormed(x)
    requires forall i :: 0 <= i < |m| ==> x.end < m[i].start && !Joins(x, m[i])
    ensures Canonical([x] + m)
  {
  }

  /** Ranges of one class that do not touch still do not touch once the other
      classes are gone. */
  lemma {:induction false} OfClassCanonical(m: seq<Range>, prop: string)
    requires Canonical(m)
    ensures Canonical(OfClass(m, prop))
  {
    if m == [] {
      assert OfClass(m, prop) == [];
    } else {
      var t := m[1..];
      var o := OfClass(t, prop);
      CanonicalTail(m);
      OfClassCanonical(t, prop);
      OfClassMembers(t, prop);
      forall i | 0 <= i < |o| ensures m[0].end < o[i].start && !Joins(m[0], o[i]) {
        assert o[i] in o;
        var k :| 0 <= k < |t| && t[k] == o[i];
        assert m[k + 1] == t[k];
      }
      ConsCanonical(m[0], o);
    }
  }

  /** On an already merged table, the second merge inside `select` is the
      identity. */
  lemma SelectOfMerged(m: seq<Range>, prop: string)
    requires Canonical(m)
    ensures Select(m, prop) == Some(OfClass(m, prop)) && Canonical(OfClass(m, prop))
  {
    OfClassCanonical(m, prop);
    MergeOfCanonical(OfClass(m, prop));
  }

  function ScalarCount(s: seq<Range>): int {
    if s == [] then 0 else s[0].end - s[0].start + 1 + ScalarCount(s[1..])
  }

  function Interval(lo: nat, hi: nat): (points: set<nat>)
    ensures forall cp :: cp in points <==> lo <= cp <= hi
    decreases hi + 1 - lo
  {
    if lo > hi then {} else {lo} + Interval(lo + 1, hi)
  }

  lemma {:induction false} IntervalSize(lo: nat, hi: nat)
    requires lo <= hi + 1
    ensures |Interval(lo, hi)| == hi + 1 - lo
    decreases hi + 1 - lo
  {
    if lo <= hi {
      IntervalSize(lo + 1, hi);
    }
  }

  /** The covered code points. */
  function Points(s: seq<Range>): set<nat> {
    if s == [] then {} else Interval(s[0].start, s[0].end) + Points(s[1..])
  }

  lemma {:induction false} PointsAreCovered(s: seq<Range>, cp: nat)
    ensures cp in Points(s) <==> exists prop :: Covers(s, cp, prop)
  {
    if s == [] {
    } else {
      PointsAreCovered(s[1..], cp);
      if cp in Interval(s[0].start, s[0].end) {
        CoversAt(s, 0, cp);
      }
      if cp in Points(s[1..]) {
        var prop :| Covers(s[1..], cp, prop);
        assert Covers(s, cp, prop);
      }
      if exists prop :: Covers(s, cp, prop) {
        var prop :| Covers(s, cp, prop);
        var i := CoveredFrom(s, cp, prop);
        if i > 0 {
          CoversAt(s[1..], i - 1, cp);
        }
      }
    }
  }

  lemma {:induction false} CountIsCardinality(m: seq<Range>)
    requires Canonical(m)
    ensures ScalarCount(m) == |Points(m)|
  {
    if m == [] {
    } else {
      CanonicalTail(m);
      CountIsCardinality(m[1..]);
      IntervalSize(m[0].start, m[0].end);
      forall cp | cp in Points(m[1..]) ensures cp !in Interval(m[0].start, m[0].end) {
        PointsAreCovered(m[1..], cp);
        var prop :| Covers(m[1..], cp, prop);
        TailCovers(m, cp, prop);
      }
    }
  }

  /** `scalar_count` of a merged table counts each covered code point of the
      input once. */
  lemma CountOfMerge(ranges: seq<Range>)
    requires AllWellFormed(ranges) && Disjoint(ranges)
    ensures MergeOf(ranges).Some?
    ensures ScalarCount(MergeOf(ranges).value) == |Points(ranges)|
  {
    MergeDecides(ranges);
    var m := MergeOf(ranges).value;
    CountIsCardinality(m);
    forall cp ensures cp in Points(m) <==> cp in Points(ranges) {
      PointsAreCovered(m, cp);
      PointsAreCovered(ranges, cp);
      assert forall prop :: Covers(m, cp, prop) <==> Covers(ranges, cp, prop);
    }
    assert Points(m) == Points(ranges);
  }

  // ---------------------------------------------------------------- emitted lookups

  /** `slice::partition_point(|r| r.start <= cp)` by halving `[lo, hi)`. */
  function PartitionPoint(table: seq<Range>, cp: nat, lo: nat, hi: nat): (p: nat)
    requires lo <= hi <= |table|
    ensures lo <= p <= hi
    decreases hi - lo
  {
    if lo == hi then lo
    else
      var mid := lo + (hi - lo) / 2;
      if table[mid].start <= cp then PartitionPoint(table, cp, mid + 1, hi)
      else PartitionPoint(table, cp, lo, mid)
  }

  /** `eaw_class`: the class of the last range starting at or below `cp`, if it
      reaches `cp`, else the UAX #11 default. */
  function EawClass(table: seq<Range>, cp: nat): string {
    var index := PartitionPoint(table, cp, 0, |table|);
    if index > 0 && cp <= table[index - 1].end then table[index - 1].prop else "N"
  }

  function InRanges(table: seq<Range>, cp: nat): bool {
    var index := PartitionPoint(table, cp, 0, |table|);
    index > 0 && cp <= table[index - 1].end
  }

  lemma {:induction false} PartitionPointSplits(table: seq<Range>, cp: nat, lo: nat, hi: nat)
    requires Canonical(table) && lo <= hi <= |table|
    requires forall i :: 0 <= i < lo ==> table[i].start <= cp
    requires forall i :: hi <= i < |table| ==> table[i].start > cp
    ensures forall i :: 0 <= i < |table| ==>
              (table[i].start <= cp <==> i < PartitionPoint(table, cp, lo, hi))
    decreases hi - lo
  {
    if lo < hi {
      var mid := lo + (hi - lo) / 2;
      forall i, j | 0 <= i < j < |table| ensures table[i].start < table[j].start {
        assert WellFormed(table[i]);
      }
      if table[mid].start <= cp {
        PartitionPointSplits(table, cp, mid + 1, hi);
      } else {
        PartitionPointSplits(table, cp, lo, mid);
      }
    }
  }

  /** The probe lands on the one range that could hold `cp`. */
  lemma ProbeFinds(table: seq<Range>, cp: nat, prop: string)
    requires Canonical(table)
    ensures Covers(table, cp, prop) <==>
              InRanges(table, cp) && table[PartitionPoint(table, cp, 0, |table|) - 1].prop == prop
  {
    var p := PartitionPoint(table, cp, 0, |table|);
    PartitionPointSplits(table, cp, 0, |table|);
    if Covers(table, cp, prop) {
      var i := CoveredFrom(table, cp, prop);
    }
    if InRanges(table, cp) && table[p - 1].prop == prop {
      CoversAt(table, p - 1, cp);
    }
  }

  /** The emitted width lookup answers from the source ranges: the class that
      covers `cp`, and the default exactly where nothing does. */
  lemma EawAgreesWithSource(ranges: seq<Range>, cp: nat)
    requires AllWellFormed(ranges) && Disjoint(ranges)
    ensures MergeOf(ranges).Some?
    ensures forall prop :: Covers(ranges, cp, prop) ==> EawClass(MergeOf(ranges).value, cp) == prop
    ensures !(exists prop :: Covers(ranges, cp, prop)) ==> EawClass(MergeOf(ranges).value, cp) == "N"
  {
    MergeDecides(ranges);
    var m := MergeOf(ranges).value;
    forall prop | Covers(ranges, cp, prop) ensures EawClass(m, cp) == prop {
      assert Covers(m, cp, prop);
      ProbeFinds(m, cp, prop);
    }
    if InRanges(m, cp) {
      ProbeFinds(m, cp, EawClass(m, cp));
      assert Covers(ranges, cp, EawClass(m, cp));
    }
  }

  /** A `select`ed table answers membership in its class, for the ranges the
      class was selected from. */
  lemma InRangesAgreesWithSource(ranges: seq<Range>, prop: string, cp: nat)
    requires AllWellFormed(ranges) && Disjoint(ranges)
    ensures MergeOf(ranges).Some? && Select(MergeOf(ranges).value, prop).Some?
    ensures InRanges(Select(MergeOf(ranges).value, prop).value, cp) <==> Covers(ranges, cp, prop)
  {
    MergeDecides(ranges);
    var m := MergeOf(ranges).value;
    SelectOfMerged(m, prop);
    var t := OfClass(m, prop);
    OfClassMembers(m, prop);
    var p := PartitionPoint(t, cp, 0, |t|);
    ProbeFinds(t, cp, prop);
    if InRanges(t, cp) {
      assert t[p - 1] in t;
    }
    assert Covers(t, cp, prop) <==> Covers(m, cp, prop) by {
      if Covers(m, cp, prop) {
        var r :| r in m && Holds(r, cp, prop);
        assert r in t;
      }
    }
  }
}
