/** The name of an S3 object: `generateS3Key`. */
module ObjectKey {
  import opened Text

  /** A UTC time as the key shows it, with what the key leaves out in `nanos`. */
  datatype Timestamp = Timestamp(year: nat, month: nat, day: nat, hour: nat, minute: nat, second: nat, nanos: nat)

  /** A time of any year from 0 on. */
  predicate Valid(t: Timestamp) {
    && 1 <= t.month <= 12 && 1 <= t.day <= 31
    && t.hour < 24 && t.minute < 60 && t.second < 60 && t.nanos < 1_000_000_000
  }

  predicate FourDigitYear(t: Timestamp) {
    t.year <= 9999
  }

  function Millis(t: Timestamp): nat {
    t.nanos / 1_000_000
  }

  const DEFAULT_PATTERN := "year=%Y/month=%m/day=%d/hour=%H"

  /** `strings.ReplaceAll(s, "%" + c, sub)`. */
  function ReplaceAll(s: string, c: char, sub: string): string {
    if |s| < 2 then s
    else if s[0] == '%' && s[1] == c then sub + ReplaceAll(s[2..], c, sub)
    else [s[0]] + ReplaceAll(s[1..], c, sub)
  }

  /** Replaces all placeholders at once, from left to right. */
  function Substitute(s: string, sub: map<char, string>): string {
    if |s| < 2 then s
    else if s[0] == '%' && s[1] in sub then sub[s[1]] + Substitute(s[2..], sub)
    else [s[0]] + Substitute(s[1..], sub)
  }

  /** Placeholder values as the program has them: non-empty runs of digits, under letters
      that are neither digits nor '%'. */
  predicate Digital(sub: map<char, string>) {
    forall c :: c in sub ==> c != '%' && !IsDigit(c) && sub[c] != "" && AllDigits(sub[c])
  }

  /** A part of a printed text: fixed text, or a number with a fixed width. */
  datatype Part = Lit(s: string) | Num(n: nat, w: nat)

  function PrintPart(p: Part): string {
    match p
    case Lit(s) => s
    case Num(n, w) => Padded(n, w)
  }

  function Print(ps: seq<Part>): string {
    if ps == [] then "" else PrintPart(ps[0]) + Print(ps[1..])
  }

  /** The layout `20060102-150405.000`. */
  function StampParts(t: Timestamp): seq<Part> {
    [Num(t.year, 4), Num(t.month, 2), Num(t.day, 2), Lit("-"), Num(t.hour, 2), Num(t.minute, 2), Num(t.second, 2),
     Lit("."), Num(Millis(t), 3)]
  }

  function Partition(pattern: string, t: Timestamp): string {
    var p := if pattern == "" then DEFAULT_PATTERN else pattern;
    var p := ReplaceAll(p, 'Y', Padded(t.year, 4));
    var p := ReplaceAll(p, 'm', Padded(t.month, 2));
    var p := ReplaceAll(p, 'd', Padded(t.day, 2));
    ReplaceAll(p, 'H', Padded(t.hour, 2))
  }

  function FileName(t: Timestamp): string {
    Print(StampParts(t)) + ".csv"
  }

  function GenerateKey(prefix: string, pattern: string, t: Timestamp): string {
    var filename := FileName(t);
    if prefix != "" then prefix + "/" + Partition(pattern, t) + "/" + filename
    else Partition(pattern, t) + "/" + filename
  }

  // ---------------------------------------------------------------------------------------
  // Sequential replacement is simultaneous substitution.
  // ---------------------------------------------------------------------------------------

  lemma {:induction false} ReplaceAllIsSubstitute(s: string, c: char, sub: string)
    ensures ReplaceAll(s, c, sub) == Substitute(s, map[c := sub])
  {
    if |s| >= 2 {
      ReplaceAllIsSubstitute(s[1..], c, sub);
      ReplaceAllIsSubstitute(s[2..], c, sub);
    }
  }

  /** Digits in front of a text come through a substitution unchanged. */
  lemma {:induction false} DigitsPass(d: string, s: string, sub: map<char, string>)
    requires AllDigits(d)
    ensures Substitute(d + s, sub) == d + Substitute(s, sub)
  {
    if d == [] {
      assert d + s == s && [] + Substitute(s, sub) == Substitute(s, sub);
    } else {
      assert (d + s)[0] == d[0] && (d + s)[1..] == d[1..] + s;
      DigitsPass(d[1..], s, sub);
      if |d + s| >= 2 {
        assert d[0] != '%';
        assert d + Substitute(s, sub) == [d[0]] + (d[1..] + Substitute(s, sub));
      } else {
        assert s == [];
      }
    }
  }

  /** A character that starts no placeholder passes through. */
  lemma {:induction false} HeadPasses(c: char, s: string, sub: map<char, string>)
    requires c == '%' && s != "" ==> s[0] !in sub
    ensures Substitute([c] + s, sub) == [c] + Substitute(s, sub)
  {
    assert ([c] + s)[1..] == s;
  }

  /** What a substitution can put first: the text's first character, or a digit. */
  lemma {:induction false} FirstAfter(s: string, sub: map<char, string>)
    requires Digital(sub)
    ensures Substitute(s, sub) == "" <==> s == ""
    ensures s != "" ==> Substitute(s, sub)[0] == s[0] || IsDigit(Substitute(s, sub)[0])
  {
  }

  /** Substituting in two rounds is substituting once: no round makes or breaks a placeholder of the other. */
  lemma {:induction false} TwoRounds(s: string, first: map<char, string>, second: map<char, string>)
    requires Digital(first) && Digital(second) && first.Keys !! second.Keys
    ensures Substitute(Substitute(s, first), second) == Substitute(s, first + second)
  {
    if |s| >= 2 {
      if s[0] == '%' && s[1] in first {
        TwoRounds(s[2..], first, second);
        DigitsPass(first[s[1]], Substitute(s[2..], first), second);
      } else if s[0] == '%' && s[1] in second {
        TwoRounds(s[2..], first, second);
        var rest := Substitute(s[2..], first);
        assert s[1..][1..] == s[2..];
        HeadPasses(s[1], s[2..], first);
        assert [s[1]] + s[2..] == s[1..];
        assert Substitute(s, first) == ['%'] + ([s[1]] + rest);
        assert (['%'] + ([s[1]] + rest))[2..] == rest;
      } else {
        TwoRounds(s[1..], first, second);
        var rest := Substitute(s[1..], first);
        FirstAfter(s[1..], first);
        HeadPasses(s[0], rest, second);
      }
    }
  }

  /** One `ReplaceAll` after the other. */
  function ReplaceEach(s: string, sub: seq<(char, string)>): string {
    if sub == [] then s else ReplaceAll(ReplaceEach(s, sub[..|sub| - 1]), sub[|sub| - 1].0, sub[|sub| - 1].1)
  }

  function AsMap(sub: seq<(char, string)>): (m: map<char, string>)
    ensures forall c :: c in m <==> exists i :: 0 <= i < |sub| && sub[i].0 == c
  {
    if sub == [] then map[] else AsMap(sub[..|sub| - 1])[sub[|sub| - 1].0 := sub[|sub| - 1].1]
  }

  /** Any sequence of replacements with distinct placeholders is one simultaneous substitution;
      so two sequences that agree as maps, in whatever order, have the same result. */
  lemma {:induction false} ReplaceEachIsSubstitute(s: string, sub: seq<(char, string)>)
    requires forall i, j :: 0 <= i < j < |sub| ==> sub[i].0 != sub[j].0
    requires Digital(AsMap(sub))
    ensures ReplaceEach(s, sub) == Substitute(s, AsMap(sub))
  {
    if sub == [] {
      SubstituteNothing(s);
    } else {
      var n := |sub| - 1;
      var before, last := AsMap(sub[..n]), map[sub[n].0 := sub[n].1];
      assert AsMap(sub) == before + last;
      assert sub[n].0 !in before;
      assert forall c :: c in before ==> c in AsMap(sub) && AsMap(sub)[c] == before[c];
      assert sub[n].0 in AsMap(sub) && AsMap(sub)[sub[n].0] == sub[n].1;
      ReplaceEachIsSubstitute(s, sub[..n]);
      ReplaceAllIsSubstitute(ReplaceEach(s, sub[..n]), sub[n].0, sub[n].1);
      TwoRounds(s, before, last);
    }
  }

  lemma {:induction false} SubstituteNothing(s: string)
    ensures Substitute(s, map[]) == s
  {
    if |s| >= 2 {
      SubstituteNothing(s[1..]);
      assert s == [s[0]] + s[1..];
    }
  }

  function Placeholders(t: Timestamp): map<char, string> {
    map['Y' := Padded(t.year, 4), 'm' := Padded(t.month, 2), 'd' := Padded(t.day, 2), 'H' := Padded(t.hour, 2)]
  }

  lemma {:induction false} PaddedIsDigits(n: nat, w: nat)
    ensures Padded(n, w) != "" && AllDigits(Padded(n, w))
  {
    ZerosAreDigits(if |Decimal(n)| >= w then 0 else w - |Decimal(n)|);
  }

  lemma {:induction false} ZerosAreDigits(k: nat)
    ensures AllDigits(Zeros(k))
  {
    if k > 0 {
      ZerosAreDigits(k - 1);
    }
  }

  /** The four replacements of the partition, for every pattern and every time. */
  lemma {:induction false} PartitionIsSubstitute(pattern: string, t: Timestamp)
    ensures Partition(pattern, t) == Substitute(if pattern == "" then DEFAULT_PATTERN else pattern, Placeholders(t))
  {
    var p := if pattern == "" then DEFAULT_PATTERN else pattern;
    PaddedIsDigits(t.year, 4);
    PaddedIsDigits(t.month, 2);
    PaddedIsDigits(t.day, 2);
    PaddedIsDigits(t.hour, 2);
    var y, m := ('Y', Padded(t.year, 4)), ('m', Padded(t.month, 2));
    var d, h := ('d', Padded(t.day, 2)), ('H', Padded(t.hour, 2));
    var sub := [y, m, d, h];
    assert sub == [y, m, d] + [h] && [y, m, d] == [y, m] + [d] && [y, m] == [y] + [m];
    assert sub[..3] == [y, m, d] && [y, m, d][..2] == [y, m] && [y, m][..1] == [y];
    assert AsMap([y]) == map['Y' := y.1];
    assert AsMap([y, m]) == map['Y' := y.1, 'm' := m.1];
    assert AsMap([y, m, d]) == map['Y' := y.1, 'm' := m.1, 'd' := d.1];
    assert AsMap(sub) == Placeholders(t);
    ReplaceEachIsSubstitute(p, sub);
    assert ReplaceEach(p, [y]) == ReplaceAll(p, 'Y', y.1);
    assert ReplaceEach(p, [y, m]) == ReplaceAll(ReplaceEach(p, [y]), 'm', m.1);
    assert ReplaceEach(p, [y, m, d]) == ReplaceAll(ReplaceEach(p, [y, m]), 'd', d.1);
    assert ReplaceEach(p, sub) == ReplaceAll(ReplaceEach(p, [y, m, d]), 'H', h.1);
  }

  /** The order of the four replacements does not matter. */
  lemma {:induction false} PartitionInAnyOrder(pattern: string, t: Timestamp, sub: seq<(char, string)>)
    requires forall i, j :: 0 <= i < j < |sub| ==> sub[i].0 != sub[j].0
    requires AsMap(sub) == Placeholders(t)
    ensures ReplaceEach(if pattern == "" then DEFAULT_PATTERN else pattern, sub) == Partition(pattern, t)
  {
    PaddedIsDigits(t.year, 4);
    PaddedIsDigits(t.month, 2);
    PaddedIsDigits(t.day, 2);
    PaddedIsDigits(t.hour, 2);
    ReplaceEachIsSubstitute(if pattern == "" then DEFAULT_PATTERN else pattern, sub);
    PartitionIsSubstitute(pattern, t);
  }

  // ---------------------------------------------------------------------------------------
  // Keys and times.
  // ---------------------------------------------------------------------------------------

  /** Agreement to the millisecond. */
  predicate SameInstant(t: Timestamp, u: Timestamp) {
    && t.year == u.year && t.month == u.month && t.day == u.day
    && t.hour == u.hour && t.minute == u.minute && t.second == u.second
    && t.nanos / 1_000_000 == u.nanos / 1_000_000
  }

  /** Chronological order, to the millisecond. */
  predicate Before(t: Timestamp, u: Timestamp) {
    t.year < u.year || (t.year == u.year &&
    (t.month < u.month || (t.month == u.month &&
    (t.day < u.day || (t.day == u.day &&
    (t.hour < u.hour || (t.hour == u.hour &&
    (t.minute < u.minute || (t.minute == u.minute &&
    (t.second < u.second || (t.second == u.second &&
    t.nanos / 1_000_000 < u.nanos / 1_000_000)))))))))))
  }

  /** Same layout: equal fixed texts and equal widths, with numbers that fit. */
  predicate SameLayout(p: seq<Part>, q: seq<Part>) {
    |p| == |q| && forall i :: 0 <= i < |p| ==> SameField(p[i], q[i])
  }

  predicate SameField(p: Part, q: Part) {
    match (p, q)
    case (Lit(s), Lit(r)) => s == r
    case (Num(m, w), Num(n, v)) => w == v > 0 && m < Pow10(w) && n < Pow10(w)
    case _ => false
  }

  /** Lexicographic comparison of the numbers of two layouts. */
  predicate NumsBefore(p: seq<Part>, q: seq<Part>)
    requires SameLayout(p, q)
  {
    p != [] && (
      (p[0].Num? && p[0].n < q[0].n) ||
      ((p[0].Num? ==> p[0].n == q[0].n) && NumsBefore(p[1..], q[1..])))
  }

  /** One part of each layout, printed. */
  lemma {:induction false} PartOrder(p: Part, q: Part)
    requires SameField(p, q)
    ensures |PrintPart(p)| == |PrintPart(q)|
    ensures Less(PrintPart(p), PrintPart(q)) <==> p.Num? && p.n < q.n
    ensures PrintPart(p) == PrintPart(q) <==> p == q
    ensures p == q <==> (p.Num? ==> p.n == q.n)
  {
    match (p, q)
    case (Lit(s), Lit(r)) => IrreflexiveText(s);
    case (Num(m, w), Num(n, v)) =>
      PaddedIsFixedWidth(m, w);
      PaddedIsFixedWidth(n, w);
      FixedWidthOrder(m, n, w);
  }

  lemma {:induction false} PrintHead(p: seq<Part>)
    requires p != []
    ensures Print(p) == PrintPart(p[0]) + Print(p[1..])
  {
  }

  lemma {:induction false} LayoutHead(p: seq<Part>, q: seq<Part>)
    requires SameLayout(p, q) && p != []
    ensures SameField(p[0], q[0]) && SameLayout(p[1..], q[1..])
    ensures p == q <==> p[0] == q[0] && p[1..] == q[1..]
    ensures NumsBefore(p, q) <==> (p[0].Num? && p[0].n < q[0].n) || (p[0] == q[0] && NumsBefore(p[1..], q[1..]))
  {
    assert p == [p[0]] + p[1..] && q == [q[0]] + q[1..];
    PartOrder(p[0], q[0]);
  }

  /** Printing with fixed widths keeps order and tells different numbers apart. */
  lemma {:induction false} PrintOrder(p: seq<Part>, q: seq<Part>)
    requires SameLayout(p, q)
    ensures Less(Print(p), Print(q)) <==> NumsBefore(p, q)
    ensures Print(p) == Print(q) <==> p == q
    ensures |Print(p)| == |Print(q)|
  {
    if p != [] {
      LayoutHead(p, q);
      PrintHead(p);
      PrintHead(q);
      PrintOrder(p[1..], q[1..]);
      PartOrder(p[0], q[0]);
      FieldOrder(PrintPart(p[0]), PrintPart(q[0]), Print(p[1..]), Print(q[1..]));
    }
  }

  /** A first field of equal width decides order and equality before the rest does. */
  lemma {:induction false} FieldOrder(a: string, b: string, x: string, y: string)
    requires |a| == |b|
    ensures Less(a + x, b + y) <==> Less(a, b) || (a == b && Less(x, y))
    ensures a + x == b + y <==> a == b && x == y
  {
    LessOfConcat(a, b, x, y);
    SplitEqual(a, b, x, y);
  }

  lemma {:induction false} IrreflexiveText(s: string)
    ensures !Less(s, s)
  {
    if Less(s, s) {
      LessAsymmetric(s, s);
    }
  }

  lemma {:induction false} SplitEqual(a: string, b: string, x: string, y: string)
    requires |a| == |b|
    ensures a + x == b + y <==> a == b && x == y
  {
    if a + x == b + y {
      assert a == (a + x)[..|a|] && b == (b + y)[..|b|];
      assert x == (a + x)[|a|..] && y == (b + y)[|b|..];
    }
  }

  lemma {:induction false} SameStampLayout(t: Timestamp, u: Timestamp)
    requires Valid(t) && Valid(u) && FourDigitYear(t) && FourDigitYear(u)
    ensures SameLayout(StampParts(t), StampParts(u))
    ensures StampParts(t) == StampParts(u) <==> SameInstant(t, u)
  {
    assert Pow10(2) == 100 && Pow10(3) == 1000 && Pow10(4) == 10000;
  }

  /** The parts of the stamp after the year have fixed widths in every year. */
  function AfterYear(t: Timestamp): seq<Part> {
    [Num(t.month, 2), Num(t.day, 2), Lit("-"), Num(t.hour, 2), Num(t.minute, 2), Num(t.second, 2), Lit("."),
     Num(Millis(t), 3)]
  }

  lemma {:induction false} StampIsYearAndRest(t: Timestamp)
    ensures Print(StampParts(t)) == Padded(t.year, 4) + Print(AfterYear(t))
  {
    assert StampParts(t)[1..] == AfterYear(t);
  }

  lemma {:induction false} SameRestLayout(t: Timestamp, u: Timestamp)
    requires Valid(t) && Valid(u)
    ensures SameLayout(AfterYear(t), AfterYear(u))
    ensures SameInstant(t, u) <==> t.year == u.year && AfterYear(t) == AfterYear(u)
  {
    assert Pow10(2) == 100 && Pow10(3) == 1000;
  }

  lemma {:induction false} StampInjective(t: Timestamp, u: Timestamp)
    requires Valid(t) && Valid(u) && Print(StampParts(t)) == Print(StampParts(u))
    ensures SameInstant(t, u)
  {
    StampIsYearAndRest(t);
    StampIsYearAndRest(u);
    SameRestLayout(t, u);
    PrintOrder(AfterYear(t), AfterYear(u));
    SplitAtEnd(Padded(t.year, 4), Padded(u.year, 4), Print(AfterYear(t)), Print(AfterYear(u)));
    PaddedInjective(t.year, u.year, 4);
  }

  lemma {:induction false} SplitAtEnd(a: string, b: string, x: string, y: string)
    requires |x| == |y| && a + x == b + y
    ensures a == b && x == y
  {
    assert |a| == |a + x| - |x| == |b|;
    SplitEqual(a, b, x, y);
  }

  predicate NoSlash(s: string) {
    '/' !in s
  }

  lemma {:induction false} PrintHasNoSlash(ps: seq<Part>)
    requires forall i :: 0 <= i < |ps| && ps[i].Lit? ==> NoSlash(ps[i].s)
    ensures NoSlash(Print(ps))
  {
    if ps != [] {
      PrintHasNoSlash(ps[1..]);
      if ps[0].Num? {
        PaddedIsDigits(ps[0].n, ps[0].w);
      }
    }
  }

  lemma {:induction false} FileNameHasNoSlash(t: Timestamp)
    ensures NoSlash(FileName(t))
  {
    PrintHasNoSlash(StampParts(t));
  }

  /** The text after the last '/' is recovered from a path. */
  lemma {:induction false} LastFieldIsUnique(a: string, x: string, b: string, y: string)
    requires NoSlash(x) && NoSlash(y) && a + ("/" + x) == b + ("/" + y)
    ensures x == y
  {
    var s := a + ("/" + x);
    assert s[|a|] == '/' && s[|b|] == '/';
    assert forall i :: |a| < i < |s| ==> s[i] == x[i - |a| - 1];
    assert forall i :: |b| < i < |s| ==> s[i] == y[i - |b| - 1];
    assert |a| == |b|;
    assert x == s[|a| + 1..] == y;
  }

  /** Everything of the key before the last '/'. */
  function Directory(prefix: string, pattern: string, t: Timestamp): string {
    Head(prefix) + Partition(pattern, t)
  }

  lemma {:induction false} KeyIsDirectoryAndFile(prefix: string, pattern: string, t: Timestamp)
    ensures GenerateKey(prefix, pattern, t) == Directory(prefix, pattern, t) + ("/" + FileName(t))
  {
    KeyShape(prefix, pattern, t);
    AssociateRight(Head(prefix), Partition(pattern, t), "/" + FileName(t));
  }

  lemma {:induction false} AssociateRight(a: string, b: string, c: string)
    ensures a + (b + c) == a + b + c
  {
  }

  /** For one exporter, two keys are equal exactly when the times agree to the millisecond. */
  lemma {:induction false} KeyInjective(prefix: string, pattern: string, t: Timestamp, u: Timestamp)
    requires Valid(t) && Valid(u)
    ensures GenerateKey(prefix, pattern, t) == GenerateKey(prefix, pattern, u) <==>
              && t.year == u.year && t.month == u.month && t.day == u.day
              && t.hour == u.hour && t.minute == u.minute && t.second == u.second
              && t.nanos / 1_000_000 == u.nanos / 1_000_000
  {
    if GenerateKey(prefix, pattern, t) == GenerateKey(prefix, pattern, u) {
      KeyIsDirectoryAndFile(prefix, pattern, t);
      KeyIsDirectoryAndFile(prefix, pattern, u);
      FileNameHasNoSlash(t);
      FileNameHasNoSlash(u);
      LastFieldIsUnique(Directory(prefix, pattern, t), FileName(t), Directory(prefix, pattern, u), FileName(u));
      SplitAtEnd(Print(StampParts(t)), Print(StampParts(u)), ".csv", ".csv");
      StampInjective(t, u);
    } else {
      SameInstantSameKey(prefix, pattern, t, u);
    }
  }

  lemma {:induction false} SameInstantSameKey(prefix: string, pattern: string, t: Timestamp, u: Timestamp)
    ensures SameInstant(t, u) ==> GenerateKey(prefix, pattern, t) == GenerateKey(prefix, pattern, u)
  {
    if SameInstant(t, u) {
      assert StampParts(t) == StampParts(u);
    }
  }

  predicate NoPercent(s: string) {
    forall i :: 0 <= i < |s| ==> s[i] != '%'
  }

  lemma {:induction false} LiteralPasses(s: string, rest: string, sub: map<char, string>)
    requires NoPercent(s)
    ensures Substitute(s + rest, sub) == s + Substitute(rest, sub)
  {
    if s == [] {
      assert s + rest == rest;
    } else {
      assert (s + rest)[1..] == s[1..] + rest;
      LiteralPasses(s[1..], rest, sub);
      if |s + rest| < 2 {
        assert rest == [] && s + rest == s;
      } else {
        assert s + Substitute(rest, sub) == [s[0]] + (s[1..] + Substitute(rest, sub));
      }
    }
  }

  /** `lit`, then a placeholder, then the rest. */
  lemma {:induction false} FieldPasses(lit: string, c: char, rest: string, sub: map<char, string>)
    requires NoPercent(lit) && c in sub
    ensures Substitute(lit + (['%', c] + rest), sub) == lit + (sub[c] + Substitute(rest, sub))
  {
    LiteralPasses(lit, ['%', c] + rest, sub);
    assert (['%', c] + rest)[2..] == rest;
  }

  function PartitionParts(t: Timestamp): seq<Part> {
    [Lit("year="), Num(t.year, 4), Lit("/month="), Num(t.month, 2), Lit("/day="), Num(t.day, 2),
     Lit("/hour="), Num(t.hour, 2)]
  }

  lemma {:induction false} PrintField(ps: seq<Part>, i: nat)
    requires i + 1 < |ps| && ps[i].Lit? && ps[i + 1].Num?
    ensures Print(ps[i..]) == ps[i].s + (Padded(ps[i + 1].n, ps[i + 1].w) + Print(ps[i + 2..]))
  {
    assert ps[i..][1..] == ps[i + 1..] && ps[i + 1..][1..] == ps[i + 2..];
  }

  /** Four texts, each followed by a value. */
  function FourFields(a: string, y: string, b: string, m: string, c: string, d: string, e: string, h: string): string {
    a + (y + (b + (m + (c + (d + (e + (h + "")))))))
  }

  lemma {:induction false} FourFieldsPrint(ps: seq<Part>)
    requires |ps| == 8 && forall i :: 0 <= i < 8 ==> if i % 2 == 0 then ps[i].Lit? else ps[i].Num?
    ensures Print(ps) == FourFields(ps[0].s, Padded(ps[1].n, ps[1].w), ps[2].s, Padded(ps[3].n, ps[3].w),
                                    ps[4].s, Padded(ps[5].n, ps[5].w), ps[6].s, Padded(ps[7].n, ps[7].w))
  {
    PrintField(ps, 0);
    PrintField(ps, 2);
    PrintField(ps, 4);
    PrintField(ps, 6);
    assert ps[0..] == ps && ps[8..] == [];
  }

  lemma {:induction false} FourFieldsSubstitute(a: string, b: string, c: string, e: string, sub: map<char, string>)
    requires NoPercent(a) && NoPercent(b) && NoPercent(c) && NoPercent(e)
    requires 'Y' in sub && 'm' in sub && 'd' in sub && 'H' in sub
    ensures Substitute(FourFields(a, ['%', 'Y'], b, ['%', 'm'], c, ['%', 'd'], e, ['%', 'H']), sub) ==
            FourFields(a, sub['Y'], b, sub['m'], c, sub['d'], e, sub['H'])
  {
    var h := e + (['%', 'H'] + "");
    var d := c + (['%', 'd'] + h);
    var m := b + (['%', 'm'] + d);
    FieldPasses(a, 'Y', m, sub);
    FieldPasses(b, 'm', d, sub);
    FieldPasses(c, 'd', h, sub);
    FieldPasses(e, 'H', "", sub);
  }

  lemma {:induction false} DefaultPatternShape()
    ensures DEFAULT_PATTERN ==
              FourFields("year=", ['%', 'Y'], "/month=", ['%', 'm'], "/day=", ['%', 'd'], "/hour=", ['%', 'H'])
  {
  }

  lemma {:induction false} PartitionPartsPrint(t: Timestamp)
    ensures Print(PartitionParts(t)) ==
            FourFields("year=", Padded(t.year, 4), "/month=", Padded(t.month, 2),
                       "/day=", Padded(t.day, 2), "/hour=", Padded(t.hour, 2))
  {
    FourFieldsPrint(PartitionParts(t));
  }

  lemma {:induction false} PatternSubstitutes(pattern: string, t: Timestamp, a: string, b: string, c: string, e: string)
    requires NoPercent(a) && NoPercent(b) && NoPercent(c) && NoPercent(e)
    requires pattern == FourFields(a, ['%', 'Y'], b, ['%', 'm'], c, ['%', 'd'], e, ['%', 'H'])
    ensures Partition(pattern, t) ==
              FourFields(a, Padded(t.year, 4), b, Padded(t.month, 2), c, Padded(t.day, 2), e, Padded(t.hour, 2))
  {
    PartitionIsSubstitute(pattern, t);
    FourFieldsSubstitute(a, b, c, e, Placeholders(t));
    assert pattern[|a|] == '%';
  }

  lemma {:induction false} DefaultPartition(t: Timestamp)
    ensures Partition("", t) == Print(PartitionParts(t))
  {
    DefaultPatternShape();
    PatternSubstitutes(DEFAULT_PATTERN, t, "year=", "/month=", "/day=", "/hour=");
    PartitionPartsPrint(t);
  }

  /** Equal texts around two fields of fixed width do not matter to the order. */
  lemma {:induction false} OrderAround(head: string, p: string, q: string, mid: string, x: string, y: string,
                                       tail: string)
    requires |p| == |q| && |x| == |y|
    ensures Less(head + (p + (mid + (x + tail))), head + (q + (mid + (y + tail)))) <==>
              Less(p, q) || (p == q && Less(x, y))
  {
    IrreflexiveText(tail);
    LessOfConcat(x, y, tail, tail);
    IrreflexiveText(mid);
    LessOfConcat(mid, mid, x + tail, y + tail);
    LessOfConcat(p, q, mid + (x + tail), mid + (y + tail));
    IrreflexiveText(head);
    LessOfConcat(head, head, p + (mid + (x + tail)), q + (mid + (y + tail)));
  }

  function Head(prefix: string): string {
    if prefix == "" then "" else prefix + "/"
  }

  lemma {:induction false} KeyShape(prefix: string, pattern: string, t: Timestamp)
    ensures GenerateKey(prefix, pattern, t) ==
              Head(prefix) + (Partition(pattern, t) + ("/" + (Print(StampParts(t)) + ".csv")))
  {
    var filename := FileName(t);
    AssociateAll(Head(prefix), Partition(pattern, t), "/", filename);
    assert "" + Partition(pattern, t) == Partition(pattern, t);
    assert GenerateKey(prefix, pattern, t) == Head(prefix) + Partition(pattern, t) + "/" + filename;
  }

  lemma {:induction false} AssociateAll(a: string, b: string, c: string, d: string)
    ensures a + b + c + d == a + (b + (c + d))
  {
  }

  /** Under the default pattern, string order of the keys is chronological order. */
  lemma {:induction false} KeyOrder(prefix: string, t: Timestamp, u: Timestamp)
    requires Valid(t) && Valid(u) && FourDigitYear(t) && FourDigitYear(u)
    ensures Less(GenerateKey(prefix, "", t), GenerateKey(prefix, "", u)) <==> Before(t, u)
  {
    KeyShape(prefix, "", t);
    KeyShape(prefix, "", u);
    DefaultPartition(t);
    DefaultPartition(u);
    PartitionOrder(t, u);
    StampOrder(t, u);
    OrderAround(Head(prefix), Partition("", t), Partition("", u), "/",
                Print(StampParts(t)), Print(StampParts(u)), ".csv");
  }

  lemma {:induction false} StampOrder(t: Timestamp, u: Timestamp)
    requires Valid(t) && Valid(u) && FourDigitYear(t) && FourDigitYear(u)
    ensures |Print(StampParts(t))| == |Print(StampParts(u))|
    ensures Less(Print(StampParts(t)), Print(StampParts(u))) <==> Before(t, u)
  {
    SameStampLayout(t, u);
    PrintOrder(StampParts(t), StampParts(u));
    StampNums(t, u);
  }

  lemma {:induction false} PartitionOrder(t: Timestamp, u: Timestamp)
    requires Valid(t) && Valid(u) && FourDigitYear(t) && FourDigitYear(u)
    ensures |Print(PartitionParts(t))| == |Print(PartitionParts(u))|
    ensures Less(Print(PartitionParts(t)), Print(PartitionParts(u))) ==> Before(t, u)
    ensures Print(PartitionParts(t)) != Print(PartitionParts(u)) && Before(t, u) ==>
              Less(Print(PartitionParts(t)), Print(PartitionParts(u)))
  {
    var p, q := PartitionParts(t), PartitionParts(u);
    assert Pow10(2) == 100 && Pow10(4) == 10000;
    assert SameLayout(p, q);
    PrintOrder(p, q);
    PartitionNums(t, u);
    if p != q {
      assert t.year != u.year || t.month != u.month || t.day != u.day || t.hour != u.hour;
    }
  }

  lemma {:induction false} PartitionNums(t: Timestamp, u: Timestamp)
    requires SameLayout(PartitionParts(t), PartitionParts(u))
    ensures NumsBefore(PartitionParts(t), PartitionParts(u)) <==>
            t.year < u.year || (t.year == u.year && (t.month < u.month || (t.month == u.month &&
            (t.day < u.day || (t.day == u.day && t.hour < u.hour)))))
  {
    OddNums(PartitionParts(t), PartitionParts(u));
  }

  /** Four texts, each followed by a number. */
  lemma {:induction false} OddNums(p: seq<Part>, q: seq<Part>)
    requires SameLayout(p, q) && |p| == 8 && forall i :: 0 <= i < 8 ==> (p[i].Num? <==> i % 2 == 1)
    ensures NumsBefore(p, q) <==>
            p[1].n < q[1].n || (p[1].n == q[1].n && (p[3].n < q[3].n || (p[3].n == q[3].n &&
            (p[5].n < q[5].n || (p[5].n == q[5].n && p[7].n < q[7].n)))))
  {
    NumsStep(p, q, 0);
    NumsStep(p, q, 1);
    NumsStep(p, q, 2);
    NumsStep(p, q, 3);
    NumsStep(p, q, 4);
    NumsStep(p, q, 5);
    NumsStep(p, q, 6);
    NumsStep(p, q, 7);
    assert p[0..] == p && q[0..] == q;
  }

  lemma {:induction false} StampNums(t: Timestamp, u: Timestamp)
    requires SameLayout(StampParts(t), StampParts(u))
    ensures NumsBefore(StampParts(t), StampParts(u)) <==> Before(t, u)
  {
    DateAndTimeNums(StampParts(t), StampParts(u));
  }

  /** Three numbers, a text, three numbers, a text and a number. */
  lemma {:induction false} DateAndTimeNums(p: seq<Part>, q: seq<Part>)
    requires SameLayout(p, q) && |p| == 9 && forall i :: 0 <= i < 9 ==> (p[i].Num? <==> i != 3 && i != 7)
    ensures NumsBefore(p, q) <==>
            p[0].n < q[0].n || (p[0].n == q[0].n && (p[1].n < q[1].n || (p[1].n == q[1].n &&
            (p[2].n < q[2].n || (p[2].n == q[2].n && (p[4].n < q[4].n || (p[4].n == q[4].n &&
            (p[5].n < q[5].n || (p[5].n == q[5].n && (p[6].n < q[6].n || (p[6].n == q[6].n && p[8].n < q[8].n)))))))))))
  {
    NumsStep(p, q, 0);
    NumsStep(p, q, 1);
    NumsStep(p, q, 2);
    NumsStep(p, q, 3);
    NumsStep(p, q, 4);
    NumsStep(p, q, 5);
    NumsStep(p, q, 6);
    NumsStep(p, q, 7);
    NumsStep(p, q, 8);
    assert p[0..] == p && q[0..] == q;
  }

  /** One step of the comparison, at position `i`. */
  lemma {:induction false} NumsStep(p: seq<Part>, q: seq<Part>, i: nat)
    requires SameLayout(p, q) && i < |p|
    ensures SameLayout(p[i..], q[i..]) && SameLayout(p[i + 1..], q[i + 1..])
    ensures NumsBefore(p[i..], q[i..]) <==>
              (p[i].Num? && p[i].n < q[i].n) || ((p[i].Num? ==> p[i].n == q[i].n) && NumsBefore(p[i + 1..], q[i + 1..]))
  {
    assert p[i..][1..] == p[i + 1..] && q[i..][1..] == q[i + 1..];
  }

  // ---------------------------------------------------------------------------------------
  // The key spelled out.
  // ---------------------------------------------------------------------------------------

  /** Texts one after the other. */
  function Concat(texts: seq<string>): string {
    if texts == [] then "" else texts[0] + Concat(texts[1..])
  }

  function Printed(ps: seq<Part>): (texts: seq<string>)
    ensures |texts| == |ps| && forall i :: 0 <= i < |ps| ==> texts[i] == PrintPart(ps[i])
  {
    seq(|ps|, i requires 0 <= i < |ps| => PrintPart(ps[i]))
  }

  lemma {:induction false} PrintIsConcat(ps: seq<Part>)
    ensures Print(ps) == Concat(Printed(ps))
  {
    if ps != [] {
      PrintIsConcat(ps[1..]);
      assert Printed(ps)[1..] == Printed(ps[1..]);
    }
  }

  lemma {:induction false} ConcatAppend(a: seq<string>, b: seq<string>)
    ensures Concat(a + b) == Concat(a) + Concat(b)
  {
    if a == [] {
      assert a + b == b;
    } else {
      ConcatAppend(a[1..], b);
      assert (a + b)[1..] == a[1..] + b;
      AssociateRight(a[0], Concat(a[1..]), Concat(b));
    }
  }

  lemma {:induction false} ConcatOne(s: string)
    ensures Concat([s]) == s
  {
    assert [s][1..] == [];
  }

  /** `text` is the number `n`, with exactly `w` decimal digits. */
  predicate Shows(text: string, n: nat, w: nat) {
    |text| == w && AllDigits(text) && Value(text) == n
  }

  lemma {:induction false} PaddedShows(n: nat, w: nat)
    requires w > 0 && n < Pow10(w)
    ensures Shows(Padded(n, w), n, w)
  {
    PaddedIsFixedWidth(n, w);
    PaddedIsCanonical(n, w);
  }

  lemma {:induction false} DateShows(t: Timestamp)
    requires Valid(t) && FourDigitYear(t)
    ensures Shows(Padded(t.year, 4), t.year, 4) && Shows(Padded(t.month, 2), t.month, 2)
    ensures Shows(Padded(t.day, 2), t.day, 2) && Shows(Padded(t.hour, 2), t.hour, 2)
  {
    PowersOfTen();
    PaddedShows(t.year, 4);
    PaddedShows(t.month, 2);
    PaddedShows(t.day, 2);
    PaddedShows(t.hour, 2);
  }

  lemma {:induction false} TimeShows(t: Timestamp)
    requires Valid(t)
    ensures Shows(Padded(t.minute, 2), t.minute, 2) && Shows(Padded(t.second, 2), t.second, 2)
    ensures Shows(Padded(t.nanos / 1_000_000, 3), t.nanos / 1_000_000, 3)
  {
    PowersOfTen();
    PaddedShows(t.minute, 2);
    PaddedShows(t.second, 2);
    PaddedShows(t.nanos / 1_000_000, 3);
  }

  lemma {:induction false} FileNameIsConcat(t: Timestamp, stamp: seq<string>)
    requires stamp == Printed(StampParts(t))
    ensures FileName(t) == Concat(stamp + [".csv"])
  {
    PrintIsConcat(StampParts(t));
    ConcatAppend(stamp, [".csv"]);
    ConcatOne(".csv");
  }

  /** The file name, field by field: date, time of day, and the milliseconds, cut off. */
  lemma {:induction false} FileNameSpelledOut(t: Timestamp)
    returns (y: string, mo: string, d: string, h: string, mi: string, s: string, ms: string)
    requires Valid(t) && FourDigitYear(t)
    ensures Shows(y, t.year, 4) && Shows(mo, t.month, 2) && Shows(d, t.day, 2)
    ensures Shows(h, t.hour, 2) && Shows(mi, t.minute, 2) && Shows(s, t.second, 2)
    ensures Shows(ms, t.nanos / 1_000_000, 3)
    ensures FileName(t) == Concat([y, mo, d, "-", h, mi, s, ".", ms, ".csv"])
  {
    DateShows(t);
    TimeShows(t);
    y, mo, d := Padded(t.year, 4), Padded(t.month, 2), Padded(t.day, 2);
    h, mi, s, ms := Padded(t.hour, 2), Padded(t.minute, 2), Padded(t.second, 2), Padded(t.nanos / 1_000_000, 3);
    var stamp := [y, mo, d, "-", h, mi, s, ".", ms];
    assert Printed(StampParts(t)) == stamp;
    FileNameIsConcat(t, stamp);
    assert stamp + [".csv"] == [y, mo, d, "-", h, mi, s, ".", ms, ".csv"];
  }

  lemma {:induction false} PowersOfTen()
    ensures Pow10(2) == 100 && Pow10(3) == 1000 && Pow10(4) == 10000
  {
  }

  /** The partition under the default pattern, field by field. */
  lemma {:induction false} PartitionSpelledOut(t: Timestamp)
    returns (y: string, mo: string, d: string, h: string)
    requires Valid(t) && FourDigitYear(t)
    ensures Shows(y, t.year, 4) && Shows(mo, t.month, 2) && Shows(d, t.day, 2) && Shows(h, t.hour, 2)
    ensures Partition("", t) == Concat(["year=", y, "/month=", mo, "/day=", d, "/hour=", h])
  {
    DateShows(t);
    y, mo, d, h := Padded(t.year, 4), Padded(t.month, 2), Padded(t.day, 2), Padded(t.hour, 2);
    DefaultPartition(t);
    PrintIsConcat(PartitionParts(t));
    assert Printed(PartitionParts(t)) == ["year=", y, "/month=", mo, "/day=", d, "/hour=", h];
  }

  /** Prefix, partition and file name, with a '/' between them; no '/' comes first if there is no prefix. */
  lemma {:induction false} KeySpelledOut(prefix: string, pattern: string, t: Timestamp)
    ensures GenerateKey(prefix, pattern, t) ==
            Concat((if prefix == "" then [] else [prefix, "/"]) + [Partition(pattern, t), "/", FileName(t)])
  {
    KeyShape(prefix, pattern, t);
    var rest := [Partition(pattern, t), "/", FileName(t)];
    assert rest[1..] == ["/", FileName(t)] && ["/", FileName(t)][1..] == [FileName(t)];
    ConcatOne(FileName(t));
    if prefix == "" {
      assert [] + rest == rest;
    } else {
      ConcatAppend([prefix, "/"], rest);
      assert [prefix, "/"][1..] == ["/"];
      ConcatOne("/");
    }
  }

  /** What the placeholders of a pattern stand for. */
  lemma {:induction false} PlaceholdersSpelledOut(t: Timestamp)
    requires Valid(t) && FourDigitYear(t)
    ensures Shows(Partition("%Y", t), t.year, 4) && Shows(Partition("%m", t), t.month, 2)
    ensures Shows(Partition("%d", t), t.day, 2) && Shows(Partition("%H", t), t.hour, 2)
  {
    DateShows(t);
    LonePlaceholder('Y', t);
    LonePlaceholder('m', t);
    LonePlaceholder('d', t);
    LonePlaceholder('H', t);
  }

  lemma {:induction false} LonePlaceholder(c: char, t: Timestamp)
    requires c in Placeholders(t)
    ensures Partition(['%', c], t) == Placeholders(t)[c]
  {
    PartitionIsSubstitute(['%', c], t);
    assert ['%', c][2..] == "";
    assert Placeholders(t)[c] + "" == Placeholders(t)[c];
  }

  /** A pattern without a placeholder is the partition as it stands. */
  lemma {:induction false} PlainPattern(pattern: string, t: Timestamp)
    requires pattern != "" && forall i :: 0 <= i < |pattern| - 1 ==> !(pattern[i] == '%' && pattern[i + 1] in "YmdH")
    ensures Partition(pattern, t) == pattern
  {
    PartitionIsSubstitute(pattern, t);
    NothingToSubstitute(pattern, Placeholders(t));
  }

  lemma {:induction false} NothingToSubstitute(s: string, sub: map<char, string>)
    requires forall i :: 0 <= i < |s| - 1 ==> !(s[i] == '%' && s[i + 1] in sub)
    ensures Substitute(s, sub) == s
  {
    if |s| >= 2 {
      NothingToSubstitute(s[1..], sub);
      assert s == [s[0]] + s[1..];
    }
  }
}
