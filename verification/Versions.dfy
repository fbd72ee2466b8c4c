/** Upstream versions, their order, and the constraints that select among them. */
module Versions {
  import opened Options
  import opened Sorting

  // ---- text ----

  const MAX_INT := 0x7FFF_FFFF_FFFF_FFFF

  predicate IsDigit(c: char) { '0' <= c <= '9' }

  predicate NotDigit(c: char) { !IsDigit(c) }

  predicate IsDot(c: char) { c == '.' }

  predicate IsComma(c: char) { c == ',' }

  predicate IsSpace(c: char) { c == ' ' || c == '\t' || c == '\n' || c == '\r' || c == '\U{0B}' || c == '\U{0C}' }

  predicate StartsSuffix(c: char) { c == '-' || c == '+' || c == '~' }

  /** The first position whose character satisfies p, or the length. */
  function Find(s: string, p: char -> bool): (i: nat)
    ensures i <= |s| && (i < |s| ==> p(s[i])) && forall k :: 0 <= k < i ==> !p(s[k])
  {
    if s == "" || p(s[0]) then 0 else 1 + Find(s[1..], p)
  }

  lemma FindIs(s: string, p: char -> bool, i: nat)
    requires i <= |s| && (i < |s| ==> p(s[i])) && forall k :: 0 <= k < i ==> !p(s[k])
    ensures Find(s, p) == i
  {}

  function TrimLeft(s: string): string {
    if s != "" && IsSpace(s[0]) then TrimLeft(s[1..]) else s
  }

  function TrimSpace(s: string): string {
    if s != "" && IsSpace(s[|s| - 1]) then TrimSpace(s[..|s| - 1]) else TrimLeft(s)
  }

  function Split(s: string, sep: char -> bool): (parts: seq<string>)
    ensures |parts| > 0
  {
    var i := Find(s, sep);
    if i == |s| then [s] else [s[..i]] + Split(s[i + 1..], sep)
  }

  function Number(s: string): nat
    requires forall k :: 0 <= k < |s| ==> IsDigit(s[k])
  {
    if s == "" then 0
    else
      var last := s[|s| - 1];
      assert IsDigit(last);
      10 * Number(s[..|s| - 1]) + (last as int - '0' as int)
  }

  // ---- versions ----

  datatype Version = Version(parts: seq<nat>, suffix: string, raw: string) {
    function Part(i: nat): nat {
      if i < |parts| then parts[i] else 0
    }
  }

  /** The number in front and what follows; a number too large for an int is no number at all. */
  function LeadingInt(s: string): (nat, string) {
    var i := Find(s, NotDigit);
    if i == 0 || Number(s[..i]) > MAX_INT then (0, s) else (Number(s[..i]), s[i..])
  }

  /** The numbers of the segments up to the first that has something else in it, and that something. */
  function ParseSegs(segs: seq<string>): (seq<nat>, string) {
    if segs == [] then ([], "")
    else
      var (n, rest) := LeadingInt(segs[0]);
      if rest != "" then ([n], rest)
      else var (ns, r) := ParseSegs(segs[1..]); ([n] + ns, r)
  }

  /** What ParseVersion reads: the segments before the first of "-+~", and the rest as suffix. */
  function Parsed(s: string): Version {
    var body := TrimSpace(s);
    var i := Find(body, StartsSuffix);
    var (ns, r) := ParseSegs(Split(body[..i], IsDot));
    Version(ns, r + body[i..], s)
  }

  method ParseLeadingInt(s: string) returns (n: nat, rest: string)
    ensures (n, rest) == LeadingInt(s)
  {
    var i := 0;
    while i < |s| && IsDigit(s[i])
      invariant 0 <= i <= |s| && forall k :: 0 <= k < i ==> IsDigit(s[k])
    {
      i := i + 1;
    }
    FindIs(s, NotDigit, i);
    if i == 0 {
      return 0, s;
    }
    var value := Number(s[..i]);
    if value > MAX_INT {
      return 0, s;
    }
    return value, s[i..];
  }

  method ParseVersion(s: string) returns (v: Version)
    ensures v == Parsed(s)
  {
    var body := TrimSpace(s);
    var suffix := "";
    var i := Find(body, StartsSuffix);
    if i < |body| {
      suffix := body[i..];
      body := body[..i];
    }
    var segs := Split(body, IsDot);
    assert body == TrimSpace(s)[..i] && suffix == TrimSpace(s)[i..];
    var parts: seq<nat> := [];
    assert segs[0..] == segs;
    for k := 0 to |segs|
      invariant ParseSegs(segs).0 == parts + ParseSegs(segs[k..]).0
      invariant ParseSegs(segs).1 == ParseSegs(segs[k..]).1
    {
      var n, rest := ParseLeadingInt(segs[k]);
      NextSegment(segs, k, n, rest);
      parts := parts + [n];
      if rest != "" {
        suffix := rest + suffix;
        return Version(parts, suffix, s);
      }
    }
    v := Version(parts, suffix, s);
  }

  lemma NextSegment(segs: seq<string>, k: nat, n: nat, rest: string)
    requires k < |segs| && (n, rest) == LeadingInt(segs[k])
    ensures rest != "" ==> ParseSegs(segs[k..]) == ([n], rest)
    ensures rest == "" ==> ParseSegs(segs[k..]) == ([n] + ParseSegs(segs[k + 1..]).0, ParseSegs(segs[k + 1..]).1)
  {}

  // ---- reading back what was written ----

  function Decimal(n: nat): string {
    (if n < 10 then "" else Decimal(n / 10)) + [('0' as int + n % 10) as char]
  }

  lemma {:induction false} DecimalReadsBack(n: nat)
    ensures var s := Decimal(n); s != "" && (forall k :: 0 <= k < |s| ==> IsDigit(s[k])) && Number(s) == n
  {
    if n >= 10 {
      DecimalReadsBack(n / 10);
      assert Decimal(n)[..|Decimal(n)| - 1] == Decimal(n / 10);
    } else {
      assert Decimal(n)[..0] == "";
    }
  }

  /** The numbers with dots between them. */
  function Dotted(parts: seq<nat>): string {
    if parts == [] then "" else Decimal(parts[0]) + if |parts| == 1 then "" else "." + Dotted(parts[1..])
  }

  predicate DigitsAndDots(d: string) {
    d != "" && IsDigit(d[0]) && IsDigit(d[|d| - 1]) && forall k :: 0 <= k < |d| ==> IsDigit(d[k]) || d[k] == '.'
  }

  predicate Fits(parts: seq<nat>) {
    forall k :: 0 <= k < |parts| ==> parts[k] <= MAX_INT
  }

  lemma {:induction false} DottedShape(parts: seq<nat>)
    requires parts != []
    ensures DigitsAndDots(Dotted(parts))
  {
    var d := Decimal(parts[0]);
    DecimalReadsBack(parts[0]);
    if |parts| > 1 {
      DottedShape(parts[1..]);
      ShapeJoins(d, Dotted(parts[1..]));
      assert Dotted(parts) == d + ("." + Dotted(parts[1..]));
    } else {
      assert Dotted(parts) == d;
    }
  }

  lemma ShapeJoins(d: string, more: string)
    requires d != "" && (forall k :: 0 <= k < |d| ==> IsDigit(d[k]))
    requires DigitsAndDots(more)
    ensures DigitsAndDots(d + ("." + more))
  {}

  lemma NumberReadsBack(n: nat)
    requires n <= MAX_INT
    ensures LeadingInt(Decimal(n)) == (n, "") && Find(Decimal(n), IsDot) == |Decimal(n)|
  {
    var d := Decimal(n);
    DecimalReadsBack(n);
    FindIs(d, NotDigit, |d|);
    FindIs(d, IsDot, |d|);
    assert d[..|d|] == d && d[|d|..] == "";
  }

  lemma FindStops(a: string, b: string, p: char -> bool)
    requires Find(a, p) == |a| && b != "" && p(b[0])
    ensures Find(a + b, p) == |a|
  {
    FindIs(a + b, p, |a|);
  }

  lemma {:induction false} SegmentsReadBack(parts: seq<nat>)
    requires parts != [] && Fits(parts)
    ensures ParseSegs(Split(Dotted(parts), IsDot)) == (parts, "") && |Split(Dotted(parts), IsDot)| == |parts|
  {
    var d, s := Decimal(parts[0]), Dotted(parts);
    NumberReadsBack(parts[0]);
    if |parts| == 1 {
      assert s == d;
      SingleSegment(d, parts[0]);
      assert parts == [parts[0]];
    } else {
      SegmentsReadBack(parts[1..]);
      SplitAtDot(d, Dotted(parts[1..]));
      OneMoreSegment(d, parts[0], Split(Dotted(parts[1..]), IsDot), parts[1..]);
      assert parts == [parts[0]] + parts[1..];
    }
  }

  lemma SplitOnce(s: string, sep: char -> bool, i: nat)
    requires i < |s| && Find(s, sep) == i
    ensures Split(s, sep) == [s[..i]] + Split(s[i + 1..], sep)
  {}

  lemma SplitAtDot(d: string, more: string)
    requires Find(d, IsDot) == |d|
    ensures Split(d + ("." + more), IsDot) == [d] + Split(more, IsDot)
  {
    var s := d + ("." + more);
    FindStops(d, "." + more, IsDot);
    SplitOnce(s, IsDot, |d|);
    assert s[|d| + 1..] == more && s[..|d|] == d;
  }

  lemma SingleSegment(d: string, n: nat)
    requires Find(d, IsDot) == |d| && LeadingInt(d) == (n, "")
    ensures ParseSegs(Split(d, IsDot)) == ([n], "") && |Split(d, IsDot)| == 1
  {
    OneMoreSegment(d, n, [], []);
    assert [d] + [] == [d] && [n] + [] == [n];
  }

  lemma OneMoreSegment(d: string, n: nat, segs: seq<string>, parts: seq<nat>)
    requires LeadingInt(d) == (n, "") && ParseSegs(segs) == (parts, "")
    ensures ParseSegs([d] + segs) == ([n] + parts, "")
  {}

  lemma NothingToTrim(s: string)
    requires s != "" && !IsSpace(s[0]) && !IsSpace(s[|s| - 1])
    ensures TrimSpace(s) == s
  {}

  /** Numbers that fit an int, and a suffix that starts like one: parsing gives back what was written. */
  lemma ParseReadsBack(parts: seq<nat>, suffix: string)
    requires parts != [] && Fits(parts)
    requires suffix != "" ==> StartsSuffix(suffix[0]) && !IsSpace(suffix[|suffix| - 1])
    ensures Parsed(Dotted(parts) + suffix) == Version(parts, suffix, Dotted(parts) + suffix)
  {
    DottedShape(parts);
    SegmentsReadBack(parts);
    ParsedText(Dotted(parts), suffix, parts);
  }

  lemma ParsedText(d: string, suffix: string, parts: seq<nat>)
    requires DigitsAndDots(d) && ParseSegs(Split(d, IsDot)) == (parts, "")
    requires suffix != "" ==> StartsSuffix(suffix[0]) && !IsSpace(suffix[|suffix| - 1])
    ensures Parsed(d + suffix) == Version(parts, suffix, d + suffix)
  {
    SuffixIsCutOff(d, suffix);
    assert "" + suffix == suffix;
  }

  lemma SuffixIsCutOff(d: string, suffix: string)
    requires DigitsAndDots(d)
    requires suffix != "" ==> StartsSuffix(suffix[0]) && !IsSpace(suffix[|suffix| - 1])
    ensures var s := d + suffix;
            TrimSpace(s) == s && Find(s, StartsSuffix) == |d| && s[..|d|] == d && s[|d|..] == suffix
  {
    var s := d + suffix;
    assert s[|s| - 1] == if suffix == "" then d[|d| - 1] else suffix[|suffix| - 1];
    assert s[0] == d[0];
    NothingToTrim(s);
    FindIs(s, StartsSuffix, |d|);
  }

  // ---- the order ----

  function Sign(a: nat, b: nat): int {
    if a < b then -1 else if a > b then 1 else 0
  }

  /** The parts from i to n - 1, the first difference deciding. */
  function CompareParts(v: Version, o: Version, i: nat, n: nat): int
    decreases n - i
  {
    if i >= n then 0
    else if v.Part(i) != o.Part(i) then Sign(v.Part(i), o.Part(i))
    else CompareParts(v, o, i + 1, n)
  }

  /** The empty suffix is the greatest: a release comes after its pre-releases. */
  function CompareSuffix(a: string, b: string): int {
    if a == b then 0
    else if a == "" then 1
    else if b == "" then -1
    else if NameLeq(a, b) then -1
    else 1
  }

  function Max(a: nat, b: nat): nat {
    if a >= b then a else b
  }

  function Compare(v: Version, o: Version): int {
    var byParts := CompareParts(v, o, 0, Max(|v.parts|, |o.parts|));
    if byParts != 0 then byParts else CompareSuffix(v.suffix, o.suffix)
  }

  method CompareVersions(v: Version, o: Version) returns (r: int)
    ensures r == Compare(v, o)
  {
    var n := Max(|v.parts|, |o.parts|);
    for i := 0 to n
      invariant CompareParts(v, o, 0, n) == CompareParts(v, o, i, n)
    {
      if v.Part(i) < o.Part(i) {
        return -1;
      } else if v.Part(i) > o.Part(i) {
        return 1;
      }
    }
    if v.suffix == o.suffix {
      return 0;
    } else if v.suffix == "" {
      return 1;
    } else if o.suffix == "" {
      return -1;
    } else if NameLeq(v.suffix, o.suffix) {
      return -1;
    }
    return 1;
  }

  /** Missing parts count as zero, so comparing further than either reaches changes nothing. */
  lemma {:induction false} ComparePartsFurther(v: Version, o: Version, i: nat, n: nat, m: nat)
    requires Max(|v.parts|, |o.parts|) <= n <= m
    ensures CompareParts(v, o, i, n) == CompareParts(v, o, i, m)
    decreases m - i
  {
    if i < m {
      ComparePartsFurther(v, o, i + 1, n, m);
    }
  }

  lemma {:induction false} ComparePartsFlip(v: Version, o: Version, i: nat, n: nat)
    ensures CompareParts(o, v, i, n) == -CompareParts(v, o, i, n)
    decreases n - i
  {
    if i < n {
      ComparePartsFlip(v, o, i + 1, n);
    }
  }

  lemma {:induction false} ComparePartsTransitive(u: Version, v: Version, w: Version, i: nat, n: nat)
    requires CompareParts(u, v, i, n) <= 0 && CompareParts(v, w, i, n) <= 0
    ensures CompareParts(u, w, i, n) <= 0
    ensures CompareParts(u, w, i, n) == 0 ==> CompareParts(u, v, i, n) == 0 && CompareParts(v, w, i, n) == 0
    ensures CompareParts(u, v, i, n) == 0 && CompareParts(v, w, i, n) == 0 ==> CompareParts(u, w, i, n) == 0
    decreases n - i
  {
    if i < n && u.Part(i) == v.Part(i) == w.Part(i) {
      ComparePartsTransitive(u, v, w, i + 1, n);
    }
  }

  lemma CompareSuffixOrders(a: string, b: string, c: string)
    ensures CompareSuffix(b, a) == -CompareSuffix(a, b)
    ensures CompareSuffix(a, b) == 0 <==> a == b
    ensures CompareSuffix(a, b) <= 0 && CompareSuffix(b, c) <= 0 ==> CompareSuffix(a, c) <= 0
  {
    NameLeqTotal(a, b);
    NameLeqTotal(b, c);
    NameLeqTotal(a, c);
    if NameLeq(a, b) && NameLeq(b, c) {
      NameLeqTransitive(a, b, c);
    }
  }

  predicate Leq(a: Version, b: Version) {
    Compare(a, b) <= 0
  }

  lemma CompareFlips(a: Version, b: Version)
    ensures Compare(b, a) == -Compare(a, b)
  {
    ComparePartsFlip(a, b, 0, Max(|a.parts|, |b.parts|));
    CompareSuffixOrders(a.suffix, b.suffix, b.suffix);
  }

  lemma LeqTransitive(a: Version, b: Version, c: Version)
    requires Leq(a, b) && Leq(b, c)
    ensures Leq(a, c)
  {
    var n := Max(Max(|a.parts|, |b.parts|), |c.parts|);
    ComparePartsFurther(a, b, 0, Max(|a.parts|, |b.parts|), n);
    ComparePartsFurther(b, c, 0, Max(|b.parts|, |c.parts|), n);
    ComparePartsFurther(a, c, 0, Max(|a.parts|, |c.parts|), n);
    ComparePartsTransitive(a, b, c, 0, n);
    CompareSuffixOrders(a.suffix, b.suffix, c.suffix);
  }

  /** Compare is a total preorder, and 0 means the same numbers (missing ones being zero) and the same suffix. */
  lemma CompareIsTotalPreorder()
    ensures TotalPreorder(Leq)
    ensures forall a, b :: Compare(b, a) == -Compare(a, b)
  {
    forall a, b ensures Compare(b, a) == -Compare(a, b) && (Leq(a, b) || Leq(b, a)) { CompareFlips(a, b); }
    forall a, b, c | Leq(a, b) && Leq(b, c) ensures Leq(a, c) { LeqTransitive(a, b, c); }
  }

  ghost predicate SameParts(a: Version, b: Version) {
    forall i: nat :: a.Part(i) == b.Part(i)
  }

  lemma {:induction false} ComparePartsDecides(a: Version, b: Version, i: nat, n: nat)
    requires i <= n && forall k :: 0 <= k < i ==> a.Part(k) == b.Part(k)
    ensures var c := CompareParts(a, b, i, n);
            || (c == 0 && forall k :: 0 <= k < n ==> a.Part(k) == b.Part(k))
            || (c != 0 && exists k :: i <= k < n && FirstDifference(a, b, k) && c == Sign(a.Part(k), b.Part(k)))
    decreases n - i
  {
    if i < n && a.Part(i) == b.Part(i) {
      ComparePartsDecides(a, b, i + 1, n);
    } else if i < n {
      assert FirstDifference(a, b, i);
    }
  }

  ghost predicate FirstDifference(a: Version, b: Version, k: nat) {
    a.Part(k) != b.Part(k) && forall i :: 0 <= i < k ==> a.Part(i) == b.Part(i)
  }

  /** Compare read as an order on infinite lists of numbers, zero from some point on, and then suffixes. */
  lemma CompareMeans(a: Version, b: Version)
    ensures if SameParts(a, b) then Compare(a, b) == CompareSuffix(a.suffix, b.suffix)
            else exists k: nat :: FirstDifference(a, b, k) && Compare(a, b) == Sign(a.Part(k), b.Part(k))
  {
    var n := Max(|a.parts|, |b.parts|);
    ComparePartsDecides(a, b, 0, n);
    if CompareParts(a, b, 0, n) == 0 {
      forall i: nat ensures a.Part(i) == b.Part(i) {}
    }
  }

  // ---- constraints ----

  datatype Op = Ge | Gt | Le | Lt | Eq | Tilde | Caret

  datatype Term = Term(op: Op, v: Version, segs: nat)

  predicate Agree(a: Version, b: Version, n: nat) {
    forall i :: 0 <= i < n ==> a.Part(i) == b.Part(i)
  }

  predicate TermMatches(t: Term, v: Version) {
    var cmp := Compare(v, t.v);
    match t.op
    case Ge => cmp >= 0
    case Gt => cmp > 0
    case Le => cmp <= 0
    case Lt => cmp < 0
    case Eq => Agree(v, t.v, t.segs)
    case Tilde => Agree(v, t.v, if t.segs <= 2 then t.segs else 2) && cmp >= 0
    case Caret => v.Part(0) == t.v.Part(0) && cmp >= 0
  }

  predicate Matches(terms: seq<Term>, v: Version) {
    forall i :: 0 <= i < |terms| ==> TermMatches(terms[i], v)
  }

  datatype ParseError = Empty | Disjunction | NoVersion | Exclusion

  datatype Result<+T> = Ok(value: T) | Err(error: ParseError)

  /** The operators in the order they are tried. */
  const OPERATORS: seq<(string, Option<Op>)> :=
    [(">=", Some(Ge)), ("<=", Some(Le)), ("!=", None), (">", Some(Gt)), ("<", Some(Lt)), ("=", Some(Eq)),
      ("~", Some(Tilde)), ("^", Some(Caret))]

  function CountSegs(s: string): nat {
    |Split(TrimSpace(s[..Find(s, StartsSuffix)]), IsDot)|
  }

  /** The operator the text starts with, trying from the k-th on. */
  function OperatorFrom(s: string, k: nat): nat
    requires k <= |OPERATORS|
    ensures k <= OperatorFrom(s, k) <= |OPERATORS|
    decreases |OPERATORS| - k
  {
    if k == |OPERATORS| || OPERATORS[k].0 <= s then k else OperatorFrom(s, k + 1)
  }

  function ParsedTerm(s: string): Result<Term> {
    if '|' in s then Err(Disjunction)
    else
      var k := OperatorFrom(s, 0);
      if k == |OPERATORS| then Ok(Term(Eq, Parsed(s), CountSegs(s)))
      else
        var rest := TrimSpace(s[|OPERATORS[k].0|..]);
        if rest == "" then Err(NoVersion)
        else if OPERATORS[k].1.None? then Err(Exclusion)
        else Ok(Term(OPERATORS[k].1.value, Parsed(rest), CountSegs(rest)))
  }

  /** The terms of the comma-separated parts; blank parts are skipped and the first bad one decides. */
  function ParsedTerms(parts: seq<string>): Result<seq<Term>> {
    if parts == [] then Ok([])
    else
      var before := ParsedTerms(parts[..|parts| - 1]);
      var part := TrimSpace(parts[|parts| - 1]);
      if before.Err? || part == "" then before
      else
        match ParsedTerm(part)
        case Err(e) => Err(e)
        case Ok(t) => Ok(before.value + [t])
  }

  function ParsedConstraint(s: string): Result<seq<Term>> {
    var body := TrimSpace(s);
    if body == "" || body == "*" then Ok([])
    else
      var terms := ParsedTerms(Split(body, IsComma));
      if terms == Ok([]) then Err(Empty) else terms
  }

  method ParseTerm(s: string) returns (r: Result<Term>)
    ensures r == ParsedTerm(s)
  {
    if '|' in s {
      return Err(Disjunction);
    }
    for k := 0 to |OPERATORS|
      invariant OperatorFrom(s, 0) == OperatorFrom(s, k)
    {
      if OPERATORS[k].0 <= s {
        var rest := TrimSpace(s[|OPERATORS[k].0|..]);
        if rest == "" {
          return Err(NoVersion);
        }
        match OPERATORS[k].1
        case None => return Err(Exclusion);
        case Some(op) =>
          var v := ParseVersion(rest);
          return Ok(Term(op, v, CountSegs(rest)));
      }
    }
    var v := ParseVersion(s);
    r := Ok(Term(Eq, v, CountSegs(s)));
  }

  method ParseConstraint(s: string) returns (r: Result<seq<Term>>)
    ensures r == ParsedConstraint(s)
  {
    var body := TrimSpace(s);
    if body == "" || body == "*" {
      return Ok([]);
    }
    var parts := Split(body, IsComma);
    var terms: seq<Term> := [];
    for k := 0 to |parts|
      invariant ParsedTerms(parts[..k]) == Ok(terms)
    {
      assert parts[..k + 1][..k] == parts[..k];
      var part := TrimSpace(parts[k]);
      if part != "" {
        var t := ParseTerm(part);
        match t
        case Err(e) =>
          FirstErrorDecides(parts, k + 1);
          return Err(e);
        case Ok(term) => terms := terms + [term];
      }
    }
    assert parts[..|parts|] == parts;
    if |terms| == 0 {
      return Err(Empty);
    }
    r := Ok(terms);
  }

  lemma {:induction false} FirstErrorDecides(parts: seq<string>, k: nat)
    requires k <= |parts| && ParsedTerms(parts[..k]).Err?
    ensures ParsedTerms(parts) == ParsedTerms(parts[..k])
    decreases |parts|
  {
    if k < |parts| {
      assert parts[..|parts| - 1][..k] == parts[..k];
      FirstErrorDecides(parts[..|parts| - 1], k);
    } else {
      assert parts[..k] == parts;
    }
  }

  predicate Bare(s: string, op: string) {
    op <= s && TrimSpace(s[|op|..]) == ""
  }

  /** A part that is blank, or has no '|', is no "!=", and has something after its operator. */
  predicate Readable(part: string) {
    var s := TrimSpace(part);
    s != "" ==> '|' !in s && !("!=" <= s) && forall k :: 0 <= k < |OPERATORS| ==> !Bare(s, OPERATORS[k].0)
  }

  lemma OperatorIsFirst(s: string, k: nat)
    requires k <= |OPERATORS|
    ensures var f := OperatorFrom(s, k);
            (f < |OPERATORS| ==> OPERATORS[f].0 <= s) && forall j :: k <= j < f ==> !(OPERATORS[j].0 <= s)
    decreases |OPERATORS| - k
  {}

  /** A term as it is written: an operator, or none for "=", the numbers with dots between them, and a suffix. */
  lemma TermReadsBack(k: nat, parts: seq<nat>, suffix: string)
    requires k < |OPERATORS| && OPERATORS[k].1.Some? && parts != [] && Fits(parts) && '|' !in suffix
    requires suffix != "" ==> StartsSuffix(suffix[0]) && !IsSpace(suffix[|suffix| - 1])
    ensures var text := Dotted(parts) + suffix; var v := Version(parts, suffix, text);
            && ParsedTerm(OPERATORS[k].0 + text) == Ok(Term(OPERATORS[k].1.value, v, |parts|))
            && ParsedTerm(text) == Ok(Term(Eq, v, |parts|))
  {
    var d := Dotted(parts);
    DottedShape(parts);
    SegmentsReadBack(parts);
    ParseReadsBack(parts, suffix);
    SegmentsOfText(d, suffix);
    ReadTerm(d + suffix, k);
  }

  lemma SegmentsOfText(d: string, suffix: string)
    requires DigitsAndDots(d) && '|' !in suffix &&
             (suffix != "" ==> StartsSuffix(suffix[0]) && !IsSpace(suffix[|suffix| - 1]))
    ensures var text := d + suffix;
            text != "" && IsDigit(text[0]) && '|' !in text && TrimSpace(text) == text &&
              CountSegs(text) == |Split(d, IsDot)|
  {
    SuffixIsCutOff(d, suffix);
    NothingToTrim(d);
    assert (d + suffix)[0] == d[0];
  }

  lemma ReadTerm(text: string, k: nat)
    requires k < |OPERATORS| && OPERATORS[k].1.Some?
    requires text != "" && IsDigit(text[0]) && '|' !in text && TrimSpace(text) == text
    ensures ParsedTerm(OPERATORS[k].0 + text) == Ok(Term(OPERATORS[k].1.value, Parsed(text), CountSegs(text)))
    ensures ParsedTerm(text) == Ok(Term(Eq, Parsed(text), CountSegs(text)))
  {
    var op := OPERATORS[k].0;
    OperatorBeforeDigit(text, k);
    assert (op + text)[|op|..] == text;
    assert '|' !in op + text;
  }

  /** In front of a digit exactly the operator that was written is found, and none when none was. */
  lemma OperatorBeforeDigit(text: string, k: nat)
    requires text != "" && IsDigit(text[0]) && k < |OPERATORS|
    ensures OperatorFrom(text, 0) == |OPERATORS| && OperatorFrom(OPERATORS[k].0 + text, 0) == k
    ensures '|' !in OPERATORS[k].0
  {
    var s := OPERATORS[k].0 + text;
    OperatorIsFirst(text, 0);
    OperatorIsFirst(s, 0);
    OperatorTexts(k);
    var f := OperatorFrom(s, 0);
    assert OPERATORS[k].0 <= s && s[|OPERATORS[k].0|] == text[0];
    if f < k {
      OperatorTexts(f);
      assert FirstChar(f) == s[0] == FirstChar(k);
      SameStart(f, k);
      LongerFirst(k, f);
    }
  }

  lemma {:induction false} BlankIsSpace(s: string)
    requires TrimSpace(s) == ""
    ensures forall k :: 0 <= k < |s| ==> IsSpace(s[k])
    decreases |s|
  {
    if s != "" && IsSpace(s[|s| - 1]) {
      BlankIsSpace(s[..|s| - 1]);
    } else if s != "" {
      LeftBlankIsSpace(s);
    }
  }

  lemma {:induction false} LeftBlankIsSpace(s: string)
    requires TrimLeft(s) == ""
    ensures forall k :: 0 <= k < |s| ==> IsSpace(s[k])
  {
    if s != "" {
      LeftBlankIsSpace(s[1..]);
    }
  }

  lemma OperatorTexts(k: nat)
    requires k < |OPERATORS|
    ensures OPERATORS[k].1.None? <==> OPERATORS[k].0 == "!="
    ensures 1 <= |OPERATORS[k].0| <= 2 && (|OPERATORS[k].0| == 2 ==> OPERATORS[k].0[1] == '=')
  {}

  function FirstChar(k: nat): char
    requires k < |OPERATORS|
  {
    OperatorTexts(k);
    OPERATORS[k].0[0]
  }

  lemma SameStart(j: nat, k: nat)
    requires j < |OPERATORS| && k < |OPERATORS| && j != k && FirstChar(j) == FirstChar(k)
    ensures |OPERATORS[j].0| + |OPERATORS[k].0| == 3 && OPERATORS[j].1.Some? && OPERATORS[k].1.Some?
  {}

  /** Only ">=" and "<=" continue another operator, and then what follows the shorter one is not blank. */
  lemma OneOperator(s: string, j: nat, k: nat)
    requires j < |OPERATORS| && k < |OPERATORS| && j != k && OPERATORS[j].0 <= s && OPERATORS[k].0 <= s
    ensures OPERATORS[j].1.Some? && OPERATORS[k].1.Some?
    ensures |OPERATORS[j].0| == 1 ==> !Bare(s, OPERATORS[j].0)
  {
    OperatorTexts(j);
    OperatorTexts(k);
    assert FirstChar(j) == s[0] == FirstChar(k);
    SameStart(j, k);
    if |OPERATORS[j].0| == 1 {
      assert OPERATORS[k].0[1] == s[1] == '=' && s[1..][0] == s[1];
      if TrimSpace(s[1..]) == "" {
        BlankIsSpace(s[1..]);
      }
    }
  }

  /** The operator that is tried first is the only one that can be left bare. */
  lemma ChosenOperator(s: string, j: nat)
    requires OperatorFrom(s, 0) < |OPERATORS| && j < |OPERATORS| && OPERATORS[j].0 <= s
    ensures OPERATORS[j].1.None? ==> j == OperatorFrom(s, 0)
    ensures Bare(s, OPERATORS[j].0) ==> j == OperatorFrom(s, 0)
  {
    var k := OperatorFrom(s, 0);
    OperatorIsFirst(s, 0);
    if j != k {
      OneOperator(s, j, k);
      assert FirstChar(j) == s[0] == FirstChar(k);
      LongerFirst(j, k);
    }
  }

  lemma LongerFirst(j: nat, k: nat)
    requires j < |OPERATORS| && k < j && FirstChar(j) == FirstChar(k)
    ensures |OPERATORS[j].0| == 1
  {}

  lemma TermReadable(part: string)
    requires TrimSpace(part) != ""
    ensures ParsedTerm(TrimSpace(part)).Ok? <==> Readable(part)
  {
    var s := TrimSpace(part);
    var k := OperatorFrom(s, 0);
    OperatorIsFirst(s, 0);
    assert OPERATORS[2].0 == "!=" && OPERATORS[2].1.None?;
    if k < |OPERATORS| {
      OperatorTexts(k);
      forall j | 0 <= j < |OPERATORS| && OPERATORS[j].0 <= s
        ensures Bare(s, OPERATORS[j].0) ==> j == k
        ensures OPERATORS[j].1.None? ==> j == k
      {
        ChosenOperator(s, j);
      }
    }
  }

  lemma {:induction false} TermsReadable(parts: seq<string>)
    ensures ParsedTerms(parts).Ok? <==> forall p :: p in parts ==> Readable(p)
    ensures ParsedTerms(parts).Ok?
            ==> (ParsedTerms(parts).value == [] <==> forall p :: p in parts ==> TrimSpace(p) == "")
  {
    if parts != [] {
      var front, last := parts[..|parts| - 1], parts[|parts| - 1];
      TermsReadable(front);
      assert forall p :: p in parts <==> p in front || p == last;
      if TrimSpace(last) != "" {
        TermReadable(last);
      }
    }
  }

  /** Exactly the constraints that are accepted. */
  lemma AcceptedExactly(s: string)
    ensures ParsedConstraint(s).Ok? <==>
              var body := TrimSpace(s);
              || body == "" || body == "*"
              || ((forall p :: p in Split(body, IsComma) ==> Readable(p))
                  && exists p :: p in Split(body, IsComma) && TrimSpace(p) != "")
  {
    TermsReadable(Split(TrimSpace(s), IsComma));
  }

  /** Between two versions that share their first n parts, all versions do. */
  lemma AgreeIsConvex(u: Version, v: Version, w: Version, n: nat)
    requires Leq(u, v) && Leq(v, w) && Agree(u, w, n)
    ensures Agree(v, u, n)
  {
    CompareMeans(u, v);
    CompareMeans(v, w);
  }

  lemma TermIsConvex(t: Term, u: Version, v: Version, w: Version)
    requires Leq(u, v) && Leq(v, w) && TermMatches(t, u) && TermMatches(t, w)
    ensures TermMatches(t, v)
  {
    CompareFlips(u, t.v);
    CompareFlips(v, t.v);
    CompareFlips(w, t.v);
    CompareFlips(u, v);
    CompareFlips(v, w);
    match t.op
    case Ge => LeqTransitive(t.v, u, v);
    case Gt =>
      if Leq(v, t.v) { LeqTransitive(u, v, t.v); }
    case Le => LeqTransitive(v, w, t.v);
    case Lt =>
      if Leq(t.v, v) { LeqTransitive(t.v, v, w); }
    case Eq => AgreeIsConvex(u, v, w, t.segs);
    case Tilde =>
      AgreeIsConvex(u, v, w, if t.segs <= 2 then t.segs else 2);
      LeqTransitive(t.v, u, v);
    case Caret =>
      AgreeIsConvex(u, v, w, 1);
      LeqTransitive(t.v, u, v);
  }

  /** What a constraint matches has no gaps. */
  lemma MatchesIsConvex(terms: seq<Term>, u: Version, v: Version, w: Version)
    requires Leq(u, v) && Leq(v, w) && Matches(terms, u) && Matches(terms, w)
    ensures Matches(terms, v)
  {
    forall i | 0 <= i < |terms| ensures TermMatches(terms[i], v) {
      TermIsConvex(terms[i], u, v, w);
    }
  }

  // ---- the expansions of ~ and ^ ----

  /** The release that opens the next line: the first n parts, the last of them raised by one. */
  function NextLine(v: Version, n: nat): Version
    requires n > 0
  {
    Version(seq(n, i requires i >= 0 => if i == n - 1 then v.Part(i) + 1 else v.Part(i)), "", "")
  }

  lemma CompareAt(a: Version, b: Version, k: nat)
    requires FirstDifference(a, b, k)
    ensures Compare(a, b) == Sign(a.Part(k), b.Part(k))
  {
    CompareMeans(a, b);
    var j: nat :| FirstDifference(a, b, j) && Compare(a, b) == Sign(a.Part(j), b.Part(j));
    assert j == k;
  }

  lemma NextLineParts(t: Version, n: nat, i: nat)
    requires n > 0
    ensures NextLine(t, n).Part(i) == if i < n - 1 then t.Part(i) else if i == n - 1 then t.Part(i) + 1 else 0
  {}

  lemma BelowNextLine(v: Version, t: Version, n: nat)
    requires n > 0 && Agree(v, t, n)
    ensures Compare(v, NextLine(t, n)) < 0 && !SameParts(v, NextLine(t, n))
  {
    var next := NextLine(t, n);
    forall i | 0 <= i < n - 1 ensures v.Part(i) == next.Part(i) { NextLineParts(t, n, i); }
    NextLineParts(t, n, n - 1);
    assert FirstDifference(v, next, n - 1);
    CompareAt(v, next, n - 1);
  }

  lemma PastTheLine(v: Version, t: Version, n: nat)
    requires n > 0 && !Agree(v, t, n) && Compare(v, t) >= 0 && !SameParts(v, NextLine(t, n))
    ensures Compare(v, NextLine(t, n)) > 0
  {
    var next := NextLine(t, n);
    CompareMeans(v, t);
    assert !SameParts(v, t);
    var k: nat :| FirstDifference(v, t, k) && Compare(v, t) == Sign(v.Part(k), t.Part(k));
    assert k < n;
    forall i | 0 <= i < k ensures v.Part(i) == next.Part(i) { NextLineParts(t, n, i); }
    NextLineParts(t, n, k);
    if k < n - 1 {
      assert FirstDifference(v, next, k);
      CompareAt(v, next, k);
    } else {
      CompareMeans(v, next);
      var j: nat :| FirstDifference(v, next, j) && Compare(v, next) == Sign(v.Part(j), next.Part(j));
      NextLineParts(t, n, j);
    }
  }

  lemma StaysInLine(v: Version, t: Version, n: nat)
    requires n > 0
    ensures Agree(v, t, n) && Compare(v, t) >= 0
        <==> Compare(v, t) >= 0 && Compare(v, NextLine(t, n)) < 0 && !SameParts(v, NextLine(t, n))
  {
    if Agree(v, t, n) {
      BelowNextLine(v, t, n);
    } else if Compare(v, t) >= 0 && !SameParts(v, NextLine(t, n)) {
      PastTheLine(v, t, n);
    }
  }

  /** `~16.4` is ">=16.4, <16.5", and `^16.4` ">=16.4, <17", except on the pre-releases of the upper bound:
      the range admits 16.5-rc1, the operator does not. Exactly there the two differ. */
  lemma TildeAndCaretExpand(t: Term, v: Version)
    requires t.op.Caret? || (t.op.Tilde? && t.segs > 0)
    ensures var n := if t.op.Caret? then 1 else if t.segs <= 2 then t.segs else 2;
            var range := [Term(Ge, t.v, t.segs), Term(Lt, NextLine(t.v, n), n)];
            (TermMatches(t, v) <==> Matches(range, v)) <==> !(SameParts(v, NextLine(t.v, n)) && v.suffix != "")
  {
    var n := if t.op.Caret? then 1 else if t.segs <= 2 then t.segs else 2;
    var next := NextLine(t.v, n);
    var range := [Term(Ge, t.v, t.segs), Term(Lt, next, n)];
    StaysInLine(v, t.v, n);
    CompareMeans(v, next);
    assert Matches(range, v) <==> TermMatches(range[0], v) && TermMatches(range[1], v);
    if SameParts(v, next) {
      AboveItsLine(v, t.v, n);
    }
  }

  lemma AboveItsLine(v: Version, t: Version, n: nat)
    requires n > 0 && SameParts(v, NextLine(t, n))
    ensures Compare(v, t) > 0
  {
    CompareMeans(v, t);
    var next := NextLine(t, n);
    assert v.Part(n - 1) == next.Part(n - 1) == t.Part(n - 1) + 1;
    assert forall i :: 0 <= i < n - 1 ==> v.Part(i) == next.Part(i) == t.Part(i);
    assert FirstDifference(v, t, n - 1);
  }

  // ---- in literal terms ----

  /** The numbers in front, if they fit an int64; no digits, or too many, and nothing is read. */
  lemma LeadingIntMeans(digits: string, rest: string)
    requires (forall k :: 0 <= k < |digits| ==> '0' <= digits[k] <= '9')
    requires rest != "" ==> !('0' <= rest[0] <= '9')
    ensures LeadingInt(digits + rest)
            == if digits != "" && Number(digits) <= 0x7FFF_FFFF_FFFF_FFFF then (Number(digits), rest)
               else (0, digits + rest)
  {
    var s := digits + rest;
    FindIs(s, NotDigit, |digits|);
    assert s[..|digits|] == digits && s[|digits|..] == rest;
  }

  /** a comes before b: by the first number that differs (a missing one is 0); and with the same numbers a comes first
      if b is the release and a is not, or both have suffixes and a's is first byte by byte. */
  ghost predicate Below(a: Version, b: Version) {
    if SameParts(a, b) then a.suffix != b.suffix && a.suffix != "" && (b.suffix == "" || Precedes(a.suffix, b.suffix))
    else exists k: nat :: FirstDifference(a, b, k) && a.Part(k) < b.Part(k)
  }

  lemma CompareExactly(a: Version, b: Version)
    ensures Compare(a, b) < 0 <==> Below(a, b)
    ensures Compare(a, b) == 0 <==> SameParts(a, b) && a.suffix == b.suffix
    ensures Compare(a, b) > 0 <==> Below(b, a)
  {
    BelowExactly(a, b);
    BelowExactly(b, a);
    CompareFlips(a, b);
    CompareMeans(a, b);
    CompareSuffixOrders(a.suffix, b.suffix, b.suffix);
  }

  lemma BelowExactly(a: Version, b: Version)
    ensures Compare(a, b) < 0 <==> Below(a, b)
  {
    CompareMeans(a, b);
    if SameParts(a, b) {
      NameLeqExactly(a.suffix, b.suffix);
    } else {
      var k: nat :| FirstDifference(a, b, k) && Compare(a, b) == Sign(a.Part(k), b.Part(k));
      forall j: nat | FirstDifference(a, b, j) ensures j == k {}
    }
  }

  /** What each operator matches. */
  lemma TermMeans(t: Term, v: Version)
    ensures TermMatches(t, v) <==>
              match t.op
              case Ge => !Below(v, t.v)
              case Gt => Below(t.v, v)
              case Le => !Below(t.v, v)
              case Lt => Below(v, t.v)
              case Eq => forall i :: 0 <= i < t.segs ==> v.Part(i) == t.v.Part(i)
              case Tilde => !Below(v, t.v) && forall i :: 0 <= i < 2 && i < t.segs ==> v.Part(i) == t.v.Part(i)
              case Caret => !Below(v, t.v) && v.Part(0) == t.v.Part(0)
  {
    CompareExactly(v, t.v);
  }

  /** The operator of a term by its text. */
  predicate Spells(text: string, op: Op) {
    || (text == ">=" && op == Ge) || (text == ">" && op == Gt) || (text == "<=" && op == Le)
    || (text == "<" && op == Lt) || (text == "=" && op == Eq) || (text == "" && op == Eq)
    || (text == "~" && op == Tilde) || (text == "^" && op == Caret)
  }

  /** An operator in front of a written version is read as itself, with that version and its number of segments. */
  lemma WrittenTerm(text: string, op: Op, parts: seq<nat>, suffix: string)
    requires Spells(text, op) && parts != [] && Fits(parts) && '|' !in suffix
    requires suffix != "" ==> StartsSuffix(suffix[0]) && !IsSpace(suffix[|suffix| - 1])
    ensures ParsedTerm(text + (Dotted(parts) + suffix))
            == Ok(Term(op, Version(parts, suffix, Dotted(parts) + suffix), |parts|))
  {
    var k := PlaceOf(text, op);
    TermReadsBack(k, parts, suffix);
    NothingInFront(Dotted(parts) + suffix);
  }

  lemma NothingInFront(s: string)
    ensures "" + s == s
  {}

  lemma PlaceOf(text: string, op: Op) returns (k: nat)
    requires Spells(text, op)
    ensures k < |OPERATORS| && OPERATORS[k].1 == Some(op) && (text != "" ==> OPERATORS[k].0 == text)
  {
    k := match op case Ge => 0 case Le => 1 case Gt => 3 case Lt => 4 case Eq => 5 case Tilde => 6 case Caret => 7;
    assert OPERATORS[k].1 == Some(op);
  }

  /** Why a term is refused: a '|' first, then nothing behind the operator, then "!=". */
  lemma TermErrors(s: string)
    ensures '|' in s ==> ParsedTerm(s) == Err(Disjunction)
    ensures '|' !in s && ParsedTerm(s).Err? ==>
              || (ParsedTerm(s) == Err(Exclusion) && "!=" <= s && TrimSpace(s[2..]) != "")
              || (ParsedTerm(s) == Err(NoVersion)
                  && exists op :: op <= s && TrimSpace(s[|op|..]) == "" && 1 <= |op| <= 2)
  {
    var k := OperatorFrom(s, 0);
    OperatorIsFirst(s, 0);
    if '|' !in s && k < |OPERATORS| {
      OperatorTexts(k);
      assert OPERATORS[k].0 <= s;
    }
  }

  /** A segment with something behind its number ends the numbers: that goes in front of the suffix, and the segments
      that follow are dropped. */
  lemma OddSegmentEndsTheNumbers(parts: seq<nat>, odd: string, dropped: string, suffix: string)
    requires parts != [] && Fits(parts) && odd != "" && !IsDigit(odd[0]) && (dropped != "" ==> dropped[0] == '.')
    requires forall k :: 0 <= k < |odd| ==> !IsDot(odd[k]) && !StartsSuffix(odd[k]) && !IsSpace(odd[k])
    requires forall k :: 0 <= k < |dropped| ==> !StartsSuffix(dropped[k]) && !IsSpace(dropped[k])
    requires suffix != "" ==> StartsSuffix(suffix[0]) && !IsSpace(suffix[|suffix| - 1])
    ensures var text := Dotted(parts) + (odd + dropped) + suffix; Parsed(text) == Version(parts, odd + suffix, text)
  {
    var body := Dotted(parts) + (odd + dropped);
    DottedShape(parts);
    OddSegments(parts, odd, dropped);
    CutOffSuffix(Dotted(parts), odd + dropped, suffix);
  }

  lemma CutOffSuffix(d: string, more: string, suffix: string)
    requires DigitsAndDots(d) && forall k :: 0 <= k < |more| ==> !StartsSuffix(more[k]) && !IsSpace(more[k])
    requires suffix != "" ==> StartsSuffix(suffix[0]) && !IsSpace(suffix[|suffix| - 1])
    ensures var body := d + more; var s := body + suffix;
            TrimSpace(s) == s && Find(s, StartsSuffix) == |body| && s[..|body|] == body && s[|body|..] == suffix
  {
    var body := d + more;
    var s := body + suffix;
    assert s[0] == d[0];
    assert s[|s| - 1] == if suffix != "" then suffix[|suffix| - 1]
                         else if more != "" then more[|more| - 1] else d[|d| - 1];
    NothingToTrim(s);
    forall k | 0 <= k < |body| ensures !StartsSuffix(s[k]) {
      assert s[k] == if k < |d| then d[k] else more[k - |d|];
    }
    FindIs(s, StartsSuffix, |body|);
  }

  lemma {:induction false} OddSegments(parts: seq<nat>, odd: string, dropped: string)
    requires parts != [] && Fits(parts) && odd != "" && !IsDigit(odd[0]) && (dropped != "" ==> dropped[0] == '.')
    requires forall k :: 0 <= k < |odd| ==> !IsDot(odd[k])
    ensures ParseSegs(Split(Dotted(parts) + (odd + dropped), IsDot)) == (parts, odd)
  {
    if |parts| == 1 {
      assert Dotted(parts) == Decimal(parts[0]) + "" == Decimal(parts[0]) && parts == [parts[0]];
      OddSegment(parts[0], odd, dropped);
    } else {
      OddSegments(parts[1..], odd, dropped);
      DottedAndMore(parts, odd + dropped);
      NumberInFront(parts[0], Dotted(parts[1..]) + (odd + dropped));
      assert parts == [parts[0]] + parts[1..];
    }
  }

  lemma DottedAndMore(parts: seq<nat>, more: string)
    requires |parts| > 1
    ensures Dotted(parts) + more == Decimal(parts[0]) + ("." + (Dotted(parts[1..]) + more))
  {
    var d, rest := Decimal(parts[0]), Dotted(parts[1..]);
    assert Dotted(parts) == d + ("." + rest);
    assert (d + ("." + rest)) + more == d + ("." + (rest + more));
  }

  lemma NumberInFront(n: nat, rest: string)
    requires n <= MAX_INT
    ensures var (ns, r) := ParseSegs(Split(rest, IsDot));
            ParseSegs(Split(Decimal(n) + ("." + rest), IsDot)) == ([n] + ns, r)
  {
    NumberReadsBack(n);
    SplitAtDot(Decimal(n), rest);
    SegmentBefore(Decimal(n), n, Split(rest, IsDot));
  }

  lemma SegmentBefore(d: string, n: nat, segs: seq<string>)
    requires LeadingInt(d) == (n, "")
    ensures ParseSegs([d] + segs) == ([n] + ParseSegs(segs).0, ParseSegs(segs).1)
  {
    assert ([d] + segs)[1..] == segs;
  }

  lemma OddSegment(n: nat, odd: string, dropped: string)
    requires n <= MAX_INT && odd != "" && !IsDigit(odd[0]) && (dropped != "" ==> dropped[0] == '.')
    requires forall k :: 0 <= k < |odd| ==> !IsDot(odd[k])
    ensures ParseSegs(Split(Decimal(n) + (odd + dropped), IsDot)) == ([n], odd)
  {
    var seg := Decimal(n) + odd;
    NumberThen(n, odd);
    Regroup(Decimal(n), odd, dropped);
    FirstSegment(seg, dropped);
    OddFirst(Split(seg + dropped, IsDot), n, odd);
  }

  lemma Regroup(a: string, b: string, c: string)
    ensures a + (b + c) == (a + b) + c
  {}

  lemma NumberThen(n: nat, odd: string)
    requires n <= MAX_INT && odd != "" && !IsDigit(odd[0])
    requires forall k :: 0 <= k < |odd| ==> !IsDot(odd[k])
    ensures LeadingInt(Decimal(n) + odd) == (n, odd)
    ensures forall k :: 0 <= k < |Decimal(n) + odd| ==> !IsDot((Decimal(n) + odd)[k])
  {
    DecimalReadsBack(n);
    LeadingIntMeans(Decimal(n), odd);
  }

  lemma FirstSegment(seg: string, more: string)
    requires (forall k :: 0 <= k < |seg| ==> !IsDot(seg[k])) && (more != "" ==> IsDot(more[0]))
    ensures Split(seg + more, IsDot)[0] == seg
  {
    FindIs(seg + more, IsDot, |seg|);
    assert (seg + more)[..|seg|] == seg;
  }

  lemma OddFirst(segs: seq<string>, n: nat, odd: string)
    requires segs != [] && LeadingInt(segs[0]) == (n, odd) && odd != ""
    ensures ParseSegs(segs) == ([n], odd)
  {}
}
