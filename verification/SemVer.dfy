/** The two independently written comparators of semantic versions, on parsed versions; the
    release script's and the asset pruner's (item 11 of Semantic Versioning 2.0.0). */
module SemVer {
  import opened Decimals
  import opened Wrappers

  type Ident = string

  /** Core numbers carry no leading zeros, so a version and its text determine each other. */
  datatype Version = Version(major: nat, minor: nat, patch: nat, prerelease: Option<seq<Ident>>, build: Option<string>)

  /** What the version grammar allows: no empty identifier, no number with a leading zero. */
  predicate ValidIdent(s: Ident) {
    s != [] && (Numeric(s) ==> Canonical(s))
  }

  predicate Valid(v: Version) {
    v.prerelease.Some? ==> forall i | 0 <= i < |v.prerelease.value| :: ValidIdent(v.prerelease.value[i])
  }

  const TWO53: nat := 9007199254740992

  function Power2(k: nat): nat {
    if k == 0 then 1 else 2 * Power2(k - 1)
  }

  /** The bits below the 53 that a double holds. */
  function Excess(n: nat): nat {
    if n < TWO53 then 0 else 1 + Excess(n / 2)
  }

  /** How many units are nearest to n, ties to even. */
  function Nearest(n: nat, unit: nat): nat
    requires unit > 0
  {
    var q, r := n / unit, n % unit;
    if 2 * r > unit || (2 * r == unit && q % 2 == 1) then q + 1 else q
  }

  function Rounded(n: nat, unit: nat): nat
    requires unit > 0
  {
    Nearest(n, unit) * unit
  }

  /** Number(text) of an integer: rounded to 53 bits. */
  function Number(n: nat): nat {
    var unit := Power2(Excess(n));
    if unit == 0 then n else Rounded(n, unit)
  }

  lemma SmallExact(n: nat)
    requires n < TWO53
    ensures Number(n) == n
  {}

  /** String comparison by code unit: negative, zero or positive. */
  function Text(a: string, b: string): (c: int)
    ensures c == 0 <==> a == b
  {
    if a == [] && b == [] then 0
    else if a == [] then -1
    else if b == [] then 1
    else if a[0] < b[0] then -1
    else if b[0] < a[0] then 1
    else
      assert a[1..] == b[1..] ==> a == b;
      Text(a[1..], b[1..])
  }

  function Sign(c: int): int {
    if c < 0 then -1 else if c > 0 then 1 else 0
  }

  // ---- compareVersionPrecedence ----

  /** Identifiers from index i on. */
  function ReleaseIdents(a: seq<Ident>, b: seq<Ident>, i: nat): int
    decreases |a| + |b| - i
  {
    if i >= |a| && i >= |b| then 0
    else if i >= |a| then -1
    else if i >= |b| then 1
    else if a[i] == b[i] then ReleaseIdents(a, b, i + 1)
    else if Numeric(a[i]) && Numeric(b[i]) then (if Number(Value(a[i])) < Number(Value(b[i])) then -1 else 1)
    else if Numeric(a[i]) != Numeric(b[i]) then (if Numeric(a[i]) then -1 else 1)
    else if Text(a[i], b[i]) < 0 then -1 else 1
  }

  function Core(v: Version): seq<int> {
    [Number(v.major), Number(v.minor), Number(v.patch)]
  }

  /** The first difference of two cores. */
  function CoreOrder(a: seq<int>, b: seq<int>, i: nat): (d: int)
    requires |a| == |b| == 3
    decreases 3 - i
  {
    if i >= 3 then 0 else if a[i] != b[i] then a[i] - b[i] else CoreOrder(a, b, i + 1)
  }

  function Release(a: Version, b: Version): int {
    var core := CoreOrder(Core(a), Core(b), 0);
    if core != 0 then Sign(core)
    else if a.prerelease.None? || b.prerelease.None? then
      if a.prerelease == b.prerelease then 0 else if a.prerelease.None? then 1 else -1
    else ReleaseIdents(a.prerelease.value, b.prerelease.value, 0)
  }

  // ---- compareSemver ----

  datatype Part = Num(n: nat) | Str(s: string)

  function PartOf(s: Ident): Part {
    if Canonical(s) then Num(Number(Value(s))) else Str(s)
  }

  function PartOrder(p: Part, q: Part): (c: int)
    ensures c == 0 <==> p == q
  {
    if p.Num? && q.Num? then p.n - q.n
    else if p.Num? then -1
    else if q.Num? then 1
    else Text(p.s, q.s)
  }

  function PruneIdents(a: seq<Ident>, b: seq<Ident>, i: nat): int
    decreases |a| + |b| - i
  {
    if i >= |a| || i >= |b| then |a| - |b|
    else if PartOrder(PartOf(a[i]), PartOf(b[i])) != 0 then PartOrder(PartOf(a[i]), PartOf(b[i]))
    else PruneIdents(a, b, i + 1)
  }

  function Prune(a: Version, b: Version): int {
    var core := CoreOrder(Core(a), Core(b), 0);
    if core != 0 then core
    else if a.prerelease.None? && b.prerelease.None? then 0
    else if a.prerelease.None? then 1
    else if b.prerelease.None? then -1
    else PruneIdents(a.prerelease.value, b.prerelease.value, 0)
  }

  // ---- The loops ----

  method CompareVersionPrecedence(a: Version, b: Version) returns (order: int)
    ensures order == Release(a, b)
  {
    var left, right := Core(a), Core(b);
    for index := 0 to 3
      invariant CoreOrder(left, right, 0) == CoreOrder(left, right, index)
    {
      if left[index] != right[index] {
        return if left[index] < right[index] then -1 else 1;
      }
    }
    if a.prerelease.None? || b.prerelease.None? {
      return if a.prerelease == b.prerelease then 0 else if a.prerelease.None? then 1 else -1;
    }
    var av, bv := a.prerelease.value, b.prerelease.value;
    var length := if |av| > |bv| then |av| else |bv|;
    for index := 0 to length
      invariant ReleaseIdents(av, bv, 0) == ReleaseIdents(av, bv, index)
    {
      if index >= |av| || index >= |bv| {
        return if index >= |av| then -1 else 1;
      }
      if av[index] != bv[index] {
        var an, bn := Numeric(av[index]), Numeric(bv[index]);
        if an && bn {
          return if Number(Value(av[index])) < Number(Value(bv[index])) then -1 else 1;
        }
        if an != bn {
          return if an then -1 else 1;
        }
        return if Text(av[index], bv[index]) < 0 then -1 else 1;
      }
    }
    return 0;
  }

  method CompareSemver(a: Version, b: Version) returns (order: int)
    ensures order == Prune(a, b)
  {
    var left, right := Core(a), Core(b);
    for index := 0 to 3
      invariant CoreOrder(left, right, 0) == CoreOrder(left, right, index)
    {
      if left[index] != right[index] {
        return left[index] - right[index];
      }
    }
    if a.prerelease.None? || b.prerelease.None? {
      return if a.prerelease == b.prerelease then 0 else if a.prerelease.None? then 1 else -1;
    }
    var av, bv := a.prerelease.value, b.prerelease.value;
    var length := if |av| < |bv| then |av| else |bv|;
    for index := 0 to length
      invariant PruneIdents(av, bv, 0) == PruneIdents(av, bv, index)
    {
      var order := PartOrder(PartOf(av[index]), PartOf(bv[index]));
      if order != 0 {
        return order;
      }
    }
    return |av| - |bv|;
  }

  // ---- The pruner's order ----

  lemma {:induction false} TextFlips(a: string, b: string)
    ensures Text(a, b) == -Text(b, a)
  {
    if a != [] && b != [] && a[0] == b[0] {
      TextFlips(a[1..], b[1..]);
    }
  }

  lemma {:induction false} TextTransitive(a: string, b: string, c: string)
    requires Text(a, b) <= 0 && Text(b, c) <= 0
    ensures Text(a, c) <= 0
  {
    if a != [] && b != [] && c != [] && a[0] == b[0] == c[0] {
      TextTransitive(a[1..], b[1..], c[1..]);
    }
  }

  lemma {:induction false} IdentsFlip(a: seq<Ident>, b: seq<Ident>, i: nat)
    ensures PruneIdents(a, b, i) == -PruneIdents(b, a, i)
    decreases |a| + |b| - i
  {
    if i < |a| && i < |b| {
      var p, q := PartOf(a[i]), PartOf(b[i]);
      if p.Str? && q.Str? {
        TextFlips(p.s, q.s);
      }
      IdentsFlip(a, b, i + 1);
    }
  }

  lemma PartTransitive(p: Part, q: Part, r: Part)
    requires PartOrder(p, q) <= 0 && PartOrder(q, r) <= 0
    ensures PartOrder(p, r) <= 0 && (PartOrder(p, r) == 0 ==> p == q == r)
  {
    if p.Str? && q.Str? && r.Str? {
      TextTransitive(p.s, q.s, r.s);
      TextFlips(p.s, q.s);
    }
  }

  lemma {:induction false} IdentsTransitive(a: seq<Ident>, b: seq<Ident>, c: seq<Ident>, i: nat)
    requires i <= |a| && i <= |b| && i <= |c|
    requires PruneIdents(a, b, i) <= 0 && PruneIdents(b, c, i) <= 0
    ensures PruneIdents(a, c, i) <= 0
    decreases |a| - i
  {
    if i < |a| && i < |b| && i < |c| {
      PartTransitive(PartOf(a[i]), PartOf(b[i]), PartOf(c[i]));
      if PartOf(a[i]) == PartOf(b[i]) == PartOf(c[i]) {
        IdentsTransitive(a, b, c, i + 1);
      }
    }
  }

  /** The pruner's comparator is a total preorder on all versions, however large the numbers:
      it flips with its arguments and is transitive. */
  lemma PruneIsTotalPreorder(a: Version, b: Version, c: Version)
    ensures Prune(a, b) == -Prune(b, a)
    ensures Prune(a, b) <= 0 && Prune(b, c) <= 0 ==> Prune(a, c) <= 0
  {
    if a.prerelease.Some? && b.prerelease.Some? {
      IdentsFlip(a.prerelease.value, b.prerelease.value, 0);
      if c.prerelease.Some? && PruneIdents(a.prerelease.value, b.prerelease.value, 0) <= 0
         && PruneIdents(b.prerelease.value, c.prerelease.value, 0) <= 0 {
        IdentsTransitive(a.prerelease.value, b.prerelease.value, c.prerelease.value, 0);
      }
    }
  }

  // ---- Rounding keeps the order ----

  lemma {:induction false} Power2Grows(d: nat, e: nat)
    requires d <= e
    ensures 0 < Power2(d) <= Power2(e) && (d < e ==> 2 * Power2(d) <= Power2(e))
    decreases e
  {
    if e > 0 {
      Power2Grows(if d < e then d else e - 1, e - 1);
    }
  }

  lemma {:induction false} ExcessGrows(n: nat, m: nat)
    requires n <= m
    ensures Excess(n) <= Excess(m)
  {
    if n >= TWO53 {
      ExcessGrows(n / 2, m / 2);
    }
  }

  lemma {:induction false} ExcessScale(n: nat)
    ensures n < TWO53 * Power2(Excess(n)) && (n >= TWO53 ==> TWO53 / 2 * Power2(Excess(n)) <= n)
  {
    if n >= TWO53 {
      ExcessScale(n / 2);
    }
  }

  lemma NumberIs(n: nat)
    ensures Power2(Excess(n)) > 0 && Number(n) == Rounded(n, Power2(Excess(n)))
  {
    Power2Grows(0, Excess(n));
  }

  lemma QuotientsAscend(n: nat, m: nat, unit: nat)
    requires unit > 0 && n <= m
    ensures n / unit <= m / unit && (n / unit == m / unit ==> n % unit <= m % unit)
  {
    var q, p := n / unit, m / unit;
    assert n == q * unit + n % unit && m == p * unit + m % unit;
    if q > p {
      Scaled(p + 1, q, unit);
    }
  }

  lemma Scaled(a: nat, b: nat, unit: nat)
    requires a <= b
    ensures a * unit <= b * unit
  {}

  lemma RoundedAscends(n: nat, m: nat, unit: nat)
    requires unit > 0 && n <= m
    ensures Rounded(n, unit) <= Rounded(m, unit)
  {
    NearestAscends(n, m, unit);
    hide Nearest;
    Scaled(Nearest(n, unit), Nearest(m, unit), unit);
  }

  lemma NearestAscends(n: nat, m: nat, unit: nat)
    requires unit > 0 && n <= m
    ensures Nearest(n, unit) <= Nearest(m, unit)
  {
    QuotientsAscend(n, m, unit);
  }

  /** Rounding gives the nearest multiple of the unit, and the even one of two. */
  lemma RoundedIsNearest(n: nat, unit: nat, k: nat)
    requires unit > 0
    ensures var d, e := n - Rounded(n, unit), n - k * unit;
            && (if d < 0 then -d else d) <= (if e < 0 then -e else e)
            && ((if d < 0 then -d else d) == (if e < 0 then -e else e) ==> k == Nearest(n, unit) || Nearest(n, unit) % 2 == 0)
  {
    var q, r := n / unit, n % unit;
    assert n == q * unit + r;
    Distances(q, k, unit);
    var up := (q + 1) * unit;
    assert up == q * unit + unit;
    hide *;
    NearestIs(n, unit);
  }

  lemma NearestIs(n: nat, unit: nat)
    requires unit > 0
    ensures var q, r := n / unit, n % unit;
            && 0 <= r < unit
            && Nearest(n, unit) == (if 2 * r > unit || (2 * r == unit && q % 2 == 1) then q + 1 else q)
            && Rounded(n, unit) == Nearest(n, unit) * unit
  {}

  /** Multiples further off lie at least a unit further. */
  lemma Distances(q: nat, k: nat, unit: nat)
    ensures k < q ==> k * unit + unit <= q * unit
    ensures k > q + 1 ==> k * unit >= (q + 1) * unit + unit
    ensures k == q + 1 ==> k * unit == q * unit + unit
  {
    if k < q {
      Scaled(k + 1, q, unit);
      assert (k + 1) * unit == k * unit + unit;
    } else if k > q + 1 {
      Scaled(q + 2, k, unit);
      assert (q + 2) * unit == (q + 1) * unit + unit;
    }
  }

  /** A multiple of the unit is a bound for the rounded number as it is for the number. */
  lemma RoundedBounds(n: nat, unit: nat, low: nat, high: nat)
    requires unit > 0 && low * unit <= n <= high * unit
    ensures low * unit <= Rounded(n, unit) <= high * unit
  {
    RoundedAscends(low * unit, n, unit);
    RoundedAscends(n, high * unit, unit);
    Multiple(low, unit);
    Multiple(high, unit);
  }

  lemma Multiple(a: nat, unit: nat)
    requires unit > 0
    ensures Rounded(a * unit, unit) == a * unit
  {
    Divides(a, unit);
  }

  lemma Divides(a: nat, unit: nat)
    requires unit > 0
    ensures (a * unit) / unit == a && (a * unit) % unit == 0
  {
    var n := a * unit;
    assert n == n / unit * unit + n % unit;
    if n / unit < a {
      Scaled(n / unit + 1, a, unit);
    } else if n / unit > a {
      Scaled(a + 1, n / unit, unit);
    }
  }

  /** A greater number never becomes the lesser double. */
  lemma NumberAscends(n: nat, m: nat)
    requires n <= m
    ensures Number(n) <= Number(m)
  {
    var d, e := Excess(n), Excess(m);
    ExcessGrows(n, m);
    NumberIs(n);
    NumberIs(m);
    Power2Grows(d, e);
    var u, v := Power2(d), Power2(e);
    if d == e {
      RoundedAscends(n, m, u);
    } else {
      ExcessScale(n);
      ExcessScale(m);
      RoundedBounds(n, u, 0, TWO53);
      RoundedBounds(m, v, TWO53 / 2, TWO53);
    }
  }

  // ---- Item 11 of Semantic Versioning 2.0.0 ----

  /** What a version is compared by, from left to right; a release ends in a field above all others. */
  datatype Field = Field(part: Part) | Final

  /** An identifier of digits alone is a number, at its exact value. */
  function ExactPart(s: Ident): Part {
    if Numeric(s) then Num(Value(s)) else Str(s)
  }

  function FieldsOf(idents: seq<Ident>): (fields: seq<Field>)
    ensures |fields| == |idents| && forall i | 0 <= i < |idents| :: fields[i] == Field(ExactPart(idents[i]))
  {
    seq(|idents|, i requires 0 <= i < |idents| => Field(ExactPart(idents[i])))
  }

  function Fields(v: Version): seq<Field> {
    [Field(Num(v.major)), Field(Num(v.minor)), Field(Num(v.patch))] +
    (if v.prerelease.None? then [Final] else FieldsOf(v.prerelease.value))
  }

  /** The first difference, at k, puts a below b: a proper beginning, or a lesser element. */
  predicate FirstBelow<T(==)>(a: seq<T>, b: seq<T>, below: (T, T) -> bool, k: nat) {
    k <= |a| && k <= |b| && a[..k] == b[..k] && (if k < |a| && k < |b| then below(a[k], b[k]) else k == |a| && k < |b|)
  }

  predicate CharBelow(c: char, d: char) {
    c < d
  }

  /** Compared character by character in ASCII order. */
  ghost predicate TextBelow(s: string, t: string) {
    exists k: nat :: FirstBelow(s, t, CharBelow, k)
  }

  /** Numbers by value, texts in ASCII order, numbers below texts. */
  ghost predicate PartBelow(p: Part, q: Part) {
    if p.Num? && q.Num? then p.n < q.n else if p.Str? && q.Str? then TextBelow(p.s, q.s) else p.Num?
  }

  ghost predicate FieldBelow(f: Field, g: Field) {
    f.Field? && (g.Final? || PartBelow(f.part, g.part))
  }

  /** What the first place k at which two field lists differ says of them. */
  ghost predicate BelowAt(f: seq<Field>, g: seq<Field>, k: nat) {
    k <= |f| && k < |g| && (k < |f| ==> FieldBelow(f[k], g[k]))
  }

  predicate DifferAt(f: seq<Field>, g: seq<Field>, k: nat) {
    k <= |f| && k <= |g| && f[..k] == g[..k] && (k < |f| && k < |g| ==> f[k] != g[k])
  }

  ghost predicate Below(f: seq<Field>, g: seq<Field>) {
    exists k: nat :: DifferAt(f, g, k) && BelowAt(f, g, k)
  }

  /** Precedence: the first difference decides; core numbers, then a prerelease below its
      release, then the prerelease identifiers, fewer below more. */
  ghost predicate Precedes(a: Version, b: Version) {
    Below(Fields(a), Fields(b))
  }
  /** The fields as the comparator sees them. */
  function Double(f: Field): Field {
    if f.Field? && f.part.Num? then Field(Num(Number(f.part.n))) else f
  }

  function Doubles(fields: seq<Field>): (doubles: seq<Field>)
    ensures |doubles| == |fields| && forall i | 0 <= i < |fields| :: doubles[i] == Double(fields[i])
  {
    seq(|fields|, i requires 0 <= i < |fields| => Double(fields[i]))
  }

  lemma {:induction false} TextIsBelow(s: string, t: string)
    ensures Text(s, t) < 0 <==> TextBelow(s, t)
  {
    if s != [] && t != [] && s[0] == t[0] {
      TextIsBelow(s[1..], t[1..]);
      if TextBelow(s, t) {
        var k: nat :| FirstBelow(s, t, CharBelow, k);
        assert k > 0;
        assert s[..k][1..] == s[1..][..k - 1] && t[..k][1..] == t[1..][..k - 1];
        assert FirstBelow(s[1..], t[1..], CharBelow, k - 1);
      }
      if TextBelow(s[1..], t[1..]) {
        var k: nat :| FirstBelow(s[1..], t[1..], CharBelow, k);
        assert s[..k + 1] == [s[0]] + s[1..][..k] && t[..k + 1] == [t[0]] + t[1..][..k];
        assert FirstBelow(s, t, CharBelow, k + 1);
      }
    } else {
      if Text(s, t) < 0 {
        assert FirstBelow(s, t, CharBelow, 0);
      }
      if TextBelow(s, t) {
        var k: nat :| FirstBelow(s, t, CharBelow, k);
        SameBefore(s, t, k, 0);
      }
    }
  }

  lemma SameBefore<T>(a: seq<T>, b: seq<T>, k: nat, i: nat)
    requires k <= |a| && k <= |b| && a[..k] == b[..k]
    ensures i < k ==> a[i] == b[i]
  {
    assert i < k ==> a[i] == a[..k][i] && b[i] == b[..k][i];
  }

  lemma PartIsBelow(p: Part, q: Part)
    ensures PartOrder(p, q) < 0 <==> PartBelow(p, q)
    ensures PartOrder(p, q) == -PartOrder(q, p)
  {
    if p.Str? && q.Str? {
      TextIsBelow(p.s, q.s);
      TextFlips(p.s, q.s);
    }
  }

  /** The first difference is one place. */
  lemma OneDifference(f: seq<Field>, g: seq<Field>, j: nat, k: nat)
    requires DifferAt(f, g, j) && DifferAt(f, g, k)
    ensures j == k
  {
    SameBefore(f, g, j, k);
    SameBefore(f, g, k, j);
  }

  /** The first difference, or the common end. */
  function Difference(f: seq<Field>, g: seq<Field>, i: nat): (k: nat)
    requires i <= |f| && i <= |g| && f[..i] == g[..i]
    ensures DifferAt(f, g, k)
    decreases |f| - i
  {
    if i < |f| && i < |g| && f[i] == g[i] then
      assert f[..i + 1] == f[..i] + [f[i]] && g[..i + 1] == g[..i] + [g[i]];
      Difference(f, g, i + 1)
    else i
  }

  lemma BelowAtFirst(f: seq<Field>, g: seq<Field>, k: nat)
    requires DifferAt(f, g, k)
    ensures Below(f, g) <==> BelowAt(f, g, k)
    ensures f == g ==> !BelowAt(f, g, k)
  {
    if Below(f, g) {
      var i: nat :| DifferAt(f, g, i) && BelowAt(f, g, i);
      OneDifference(f, g, i, k);
    }
  }

  /** The identifiers from i on decide as the fields from 3 + i on. */
  lemma {:induction false} IdentsDecide(f: seq<Field>, g: seq<Field>, a: seq<Ident>, b: seq<Ident>, i: nat, k: nat)
    requires |f| == 3 + |a| && forall j | 0 <= j < |a| :: f[3 + j] == Field(PartOf(a[j]))
    requires |g| == 3 + |b| && forall j | 0 <= j < |b| :: g[3 + j] == Field(PartOf(b[j]))
    requires i <= |a| && i <= |b| && f[..3 + i] == g[..3 + i] && DifferAt(f, g, k)
    ensures PruneIdents(a, b, i) < 0 <==> BelowAt(f, g, k)
    decreases |a| - i
  {
    hide PartOf, PartOrder, Text;
    if i < |a| && i < |b| {
      PartIsBelow(PartOf(a[i]), PartOf(b[i]));
      hide PartBelow;
      if f[3 + i] == g[3 + i] {
        assert f[..3 + i + 1] == f[..3 + i] + [f[3 + i]] && g[..3 + i + 1] == g[..3 + i] + [g[3 + i]];
        IdentsDecide(f, g, a, b, i + 1, k);
      } else {
        OneDifference(f, g, k, 3 + i);
      }
    } else {
      OneDifference(f, g, k, 3 + i);
    }
  }

  lemma CoreDecides(a: Version, b: Version, f: seq<Field>, g: seq<Field>, k: nat)
    requires f == Doubles(Fields(a)) && g == Doubles(Fields(b)) && DifferAt(f, g, k)
    ensures Core(a) != Core(b) ==> (Prune(a, b) < 0 <==> BelowAt(f, g, k))
    ensures Core(a) == Core(b) ==> f[..3] == g[..3]
  {
    var c, d := Core(a), Core(b);
    assert forall i | 0 <= i < 3 :: f[i] == Field(Num(c[i])) && g[i] == Field(Num(d[i]));
    hide Number, Prune, Fields, Doubles;
    if c != d {
      var i := if c[0] != d[0] then 0 else if c[1] != d[1] then 1 else 2;
      assert c == [c[0], c[1], c[2]] && d == [d[0], d[1], d[2]];
      OneDifference(f, g, k, i);
    }
  }

  lemma PartIsDouble(s: Ident)
    requires ValidIdent(s)
    ensures Double(Field(ExactPart(s))) == Field(PartOf(s))
  {}

  lemma PrereleaseFields(v: Version, f: seq<Field>)
    requires Valid(v) && f == Doubles(Fields(v))
    ensures v.prerelease.None? ==> |f| == 4 && f[3] == Final
    ensures v.prerelease.Some? ==>
      var p := v.prerelease.value;
      |f| == 3 + |p| && forall i | 0 <= i < |p| :: f[3 + i] == Field(PartOf(p[i]))
  {
    hide Number, PartOf, Numeric, Canonical, ExactPart;
    if v.prerelease.Some? {
      forall i | 0 <= i < |v.prerelease.value| ensures f[3 + i] == Field(PartOf(v.prerelease.value[i])) {
        PartIsDouble(v.prerelease.value[i]);
      }
    }
  }

  lemma PrereleaseDecides(a: Version, b: Version, k: nat)
    requires Valid(a) && Valid(b) && DifferAt(Doubles(Fields(a)), Doubles(Fields(b)), k)
    requires Core(a) == Core(b) && Doubles(Fields(a))[..3] == Doubles(Fields(b))[..3]
    ensures Prune(a, b) < 0 <==> BelowAt(Doubles(Fields(a)), Doubles(Fields(b)), k)
  {
    var f, g := Doubles(Fields(a)), Doubles(Fields(b));
    PrereleaseFields(a, f);
    PrereleaseFields(b, g);
    CoreFlips(a, b);
    hide Fields, Doubles, Core, CoreOrder;
    if a.prerelease.Some? && b.prerelease.Some? {
      IdentsDecide(f, g, a.prerelease.value, b.prerelease.value, 0, k);
    } else if a.prerelease.Some? || b.prerelease.Some? {
      OneDifference(f, g, k, 3);
    } else {
      assert f == f[..3] + [Final] == g;
    }
  }

  /** The comparator's sign is the first difference of the fields as doubles. */
  lemma PruneDecides(a: Version, b: Version, k: nat)
    requires Valid(a) && Valid(b) && DifferAt(Doubles(Fields(a)), Doubles(Fields(b)), k)
    ensures Prune(a, b) < 0 <==> BelowAt(Doubles(Fields(a)), Doubles(Fields(b)), k)
  {
    var f, g := Doubles(Fields(a)), Doubles(Fields(b));
    CoreDecides(a, b, f, g, k);
    if Core(a) == Core(b) {
      PrereleaseDecides(a, b, k);
    }
  }

  /** Two numbers that a double cannot tell apart. */
  predicate Blurs(f: Field, g: Field) {
    f.Field? && g.Field? && f.part.Num? && g.part.Num? && f != g && Number(f.part.n) == Number(g.part.n)
  }

  /** The first difference of two versions, or their common end. */
  function FirstDifference(a: Version, b: Version): (k: nat)
    ensures DifferAt(Fields(a), Fields(b), k)
  {
    Difference(Fields(a), Fields(b), 0)
  }

  /** The first difference as doubles. */
  function FirstAsDoubles(a: Version, b: Version): (k: nat)
    ensures DifferAt(Doubles(Fields(a)), Doubles(Fields(b)), k)
  {
    Difference(Doubles(Fields(a)), Doubles(Fields(b)), 0)
  }

  /** The first difference of two versions is two numbers equal as doubles. */
  predicate Blurred(a: Version, b: Version) {
    var f, g, k := Fields(a), Fields(b), FirstDifference(a, b);
    k < |f| && k < |g| && Blurs(f[k], g[k])
  }

  lemma BlursExactly(f: Field, g: Field)
    requires f != g
    ensures Double(f) == Double(g) <==> Blurs(f, g)
    ensures !Blurs(f, g) ==> (FieldBelow(f, g) <==> FieldBelow(Double(f), Double(g)))
    ensures Blurs(f, g) ==> (FieldBelow(f, g) || FieldBelow(g, f)) && !(FieldBelow(f, g) && FieldBelow(g, f))
  {
    if f.Field? && g.Field? && f.part.Num? && g.part.Num? {
      if f.part.n <= g.part.n {
        NumberAscends(f.part.n, g.part.n);
      } else {
        NumberAscends(g.part.n, f.part.n);
      }
    }
    hide Number, TextBelow;
  }

  lemma SameDoubles(f: seq<Field>, g: seq<Field>, k: nat)
    requires k <= |f| && k <= |g| && f[..k] == g[..k]
    ensures Doubles(f)[..k] == Doubles(g)[..k]
  {
    hide Double;
    forall i | 0 <= i < k ensures Doubles(f)[i] == Doubles(g)[i] {
      SameBefore(f, g, k, i);
    }
  }

  /** The comparator stops at the first difference exactly when that is not blurred. */
  lemma StopsAtFirst(a: Version, b: Version)
    ensures FirstAsDoubles(a, b) == FirstDifference(a, b) <==> !Blurred(a, b)
    ensures !Blurred(a, b) ==>
      (BelowAt(Fields(a), Fields(b), FirstDifference(a, b)) <==> BelowAt(Doubles(Fields(a)), Doubles(Fields(b)), FirstDifference(a, b)))
  {
    var f, g, k, j := Fields(a), Fields(b), FirstDifference(a, b), FirstAsDoubles(a, b);
    SameDoubles(f, g, k);
    hide Fields, FirstDifference, FirstAsDoubles, Double, FieldBelow, Blurs;
    if k < |f| && k < |g| {
      BlursExactly(f[k], g[k]);
    }
    if !Blurred(a, b) {
      OneDifference(Doubles(f), Doubles(g), j, k);
    }
  }

  /** The comparator decides as item 11 does, both ways. */
  ghost predicate Agrees(a: Version, b: Version) {
    && (Prune(a, b) < 0 <==> Precedes(a, b))
    && (Prune(a, b) > 0 <==> Precedes(b, a))
  }

  /** Of two versions whose first difference is blurred: the next one as doubles goes the same way. */
  ghost predicate Recovers(a: Version, b: Version)
    requires Blurred(a, b)
  {
    var k, j := FirstDifference(a, b), FirstAsDoubles(a, b);
    if Fields(a)[k].part.n < Fields(b)[k].part.n then BelowAt(Doubles(Fields(a)), Doubles(Fields(b)), j)
    else BelowAt(Doubles(Fields(b)), Doubles(Fields(a)), j)
  }

  lemma PruneFlips(a: Version, b: Version)
    ensures Prune(a, b) == -Prune(b, a)
  {
    PruneIsTotalPreorder(a, b, a);
  }

  lemma DecidesOnce(f: seq<Field>, g: seq<Field>, k: nat)
    requires DifferAt(f, g, k)
    ensures DifferAt(g, f, k) && !(BelowAt(f, g, k) && BelowAt(g, f, k))
  {
    if k < |f| && k < |g| && f[k].Field? && g[k].Field? {
      PartIsBelow(f[k].part, g[k].part);
      PartIsBelow(g[k].part, f[k].part);
    }
  }

  lemma SameDifference(a: Version, b: Version)
    ensures FirstDifference(a, b) == FirstDifference(b, a) && FirstAsDoubles(a, b) == FirstAsDoubles(b, a)
  {
    OneDifference(Fields(a), Fields(b), FirstDifference(a, b), FirstDifference(b, a));
    OneDifference(Doubles(Fields(a)), Doubles(Fields(b)), FirstAsDoubles(a, b), FirstAsDoubles(b, a));
  }

  /** One direction, from the two first differences. */
  lemma BothBelow(a: Version, b: Version)
    requires Valid(a) && Valid(b)
    ensures Prune(a, b) < 0 <==> BelowAt(Doubles(Fields(a)), Doubles(Fields(b)), FirstAsDoubles(a, b))
    ensures Precedes(a, b) <==> BelowAt(Fields(a), Fields(b), FirstDifference(a, b))
  {
    PruneDecides(a, b, FirstAsDoubles(a, b));
    BelowAtFirst(Fields(a), Fields(b), FirstDifference(a, b));
  }

  /** The pruner's comparator decides as item 11 does, at exact values and for all versions, if
      and only if the first difference is not two numbers equal as doubles, or one further to
      the right happens to go the same way. */
  lemma PruneAgreesExactly(a: Version, b: Version)
    requires Valid(a) && Valid(b)
    ensures Agrees(a, b) <==> (Blurred(a, b) ==> Recovers(a, b))
  {
    BothBelow(a, b);
    BothBelow(b, a);
    PruneFlips(a, b);
    SameDifference(a, b);
    StopsAtFirst(a, b);
    StopsAtFirst(b, a);
    var k, j := FirstDifference(a, b), FirstAsDoubles(a, b);
    DecidesOnce(Fields(a), Fields(b), k);
    DecidesOnce(Doubles(Fields(a)), Doubles(Fields(b)), j);
    hide Prune, Precedes, Doubles, FirstDifference, FirstAsDoubles, Valid;
    if Blurred(a, b) {
      var f, g := Fields(a)[k], Fields(b)[k];
      assert FieldBelow(f, g) <==> f.part.n < g.part.n;
      assert FieldBelow(g, f) <==> g.part.n < f.part.n;
    }
  }

  // ---- Agreement ----

  /** The first differing identifiers are two numbers that a double cannot tell apart. */
  predicate IdentsClash(a: seq<Ident>, b: seq<Ident>, i: nat)
    decreases |a| + |b| - i
  {
    i < |a| && i < |b| &&
    (if a[i] == b[i] then IdentsClash(a, b, i + 1)
     else Numeric(a[i]) && Numeric(b[i]) && Number(Value(a[i])) == Number(Value(b[i])))
  }

  predicate Clash(a: Version, b: Version) {
    && Core(a) == Core(b) && a.prerelease.Some? && b.prerelease.Some?
    && IdentsClash(a.prerelease.value, b.prerelease.value, 0)
  }

  lemma {:induction false} ReleaseIdentsFlip(a: seq<Ident>, b: seq<Ident>, i: nat)
    ensures ReleaseIdents(a, b, i) == -ReleaseIdents(b, a, i) <==> !IdentsClash(a, b, i)
    decreases |a| + |b| - i
  {
    if i < |a| && i < |b| {
      TextFlips(a[i], b[i]);
      ReleaseIdentsFlip(a, b, i + 1);
    }
  }

  lemma CoreFlips(a: Version, b: Version)
    ensures CoreOrder(Core(a), Core(b), 0) == -CoreOrder(Core(b), Core(a), 0)
    ensures CoreOrder(Core(a), Core(b), 0) == 0 <==> Core(a) == Core(b)
  {}

  /** The release script's comparator flips with its arguments exactly when they do not clash. */
  lemma ReleaseFlipsExactly(a: Version, b: Version)
    ensures Release(a, b) == -Release(b, a) <==> !Clash(a, b)
  {
    CoreFlips(a, b);
    if a.prerelease.Some? && b.prerelease.Some? {
      ReleaseIdentsFlip(a.prerelease.value, b.prerelease.value, 0);
    }
  }

  lemma {:induction false} IdentsAgree(a: seq<Ident>, b: seq<Ident>, i: nat)
    requires i <= |a| && i <= |b| && !IdentsClash(a, b, i)
    requires (forall k | 0 <= k < |a| :: ValidIdent(a[k])) && (forall k | 0 <= k < |b| :: ValidIdent(b[k]))
    ensures ReleaseIdents(a, b, i) == Sign(PruneIdents(a, b, i))
    decreases |a| + |b| - i
  {
    if i < |a| && i < |b| {
      if a[i] == b[i] {
        IdentsAgree(a, b, i + 1);
      }
    }
  }

  /** The two comparators have the same sign on all valid versions that do not clash. */
  lemma ComparatorsAgree(a: Version, b: Version)
    requires Valid(a) && Valid(b) && !Clash(a, b)
    ensures Release(a, b) == Sign(Prune(a, b))
  {
    CoreFlips(a, b);
    if a.prerelease.Some? && b.prerelease.Some? && Core(a) == Core(b) {
      IdentsAgree(a.prerelease.value, b.prerelease.value, 0);
    }
  }

  /** Every numeric identifier is below 2^53. */
  predicate Small(v: Version) {
    v.prerelease.Some? ==> forall i | 0 <= i < |v.prerelease.value| && Numeric(v.prerelease.value[i]) :: Value(v.prerelease.value[i]) < TWO53
  }

  lemma {:induction false} SmallIdentsNoClash(a: seq<Ident>, b: seq<Ident>, i: nat)
    requires (forall k | 0 <= k < |a| :: ValidIdent(a[k]) && (Numeric(a[k]) ==> Value(a[k]) < TWO53))
    requires (forall k | 0 <= k < |b| :: ValidIdent(b[k]) && (Numeric(b[k]) ==> Value(b[k]) < TWO53))
    ensures !IdentsClash(a, b, i)
    decreases |a| + |b| - i
  {
    if i < |a| && i < |b| {
      if a[i] == b[i] {
        SmallIdentsNoClash(a, b, i + 1);
      } else if Numeric(a[i]) && Numeric(b[i]) {
        SmallExact(Value(a[i]));
        SmallExact(Value(b[i]));
        if Value(a[i]) == Value(b[i]) {
          OneText(a[i], b[i]);
        }
      }
    }
  }

  lemma SmallNeverClash(a: Version, b: Version)
    requires Valid(a) && Valid(b) && Small(a) && Small(b)
    ensures !Clash(a, b)
  {
    if a.prerelease.Some? && b.prerelease.Some? {
      SmallIdentsNoClash(a.prerelease.value, b.prerelease.value, 0);
    }
  }

  /** On valid versions with numeric identifiers below 2^53 the release script's comparator is
      a total preorder too, and the same one. */
  lemma ReleaseIsTotalPreorder(a: Version, b: Version, c: Version)
    requires Valid(a) && Valid(b) && Valid(c) && Small(a) && Small(b) && Small(c)
    ensures Release(a, b) == -Release(b, a) == Sign(Prune(a, b))
    ensures Release(a, b) <= 0 && Release(b, c) <= 0 ==> Release(a, c) <= 0
  {
    SmallNeverClash(a, b);
    SmallNeverClash(b, c);
    SmallNeverClash(a, c);
    ReleaseFlipsExactly(a, b);
    ComparatorsAgree(a, b);
    ComparatorsAgree(b, c);
    ComparatorsAgree(a, c);
    PruneIsTotalPreorder(a, b, c);
  }

  lemma EqualAsDoubles()
    ensures Number(TWO53) == TWO53 == Number(TWO53 + 1)
  {}

  /** Past 2^53 it is not an order: of 1.0.0-9007199254740992 and 1.0.0-9007199254740993 each
      comes out above the other, while the pruner holds them equal and item 11 puts the first below. */
  lemma LargeNumbersClash()
    ensures var a := Version(1, 0, 0, Some([Decimal(TWO53)]), None);
            var b := Version(1, 0, 0, Some([Decimal(TWO53 + 1)]), None);
            && Valid(a) && Valid(b) && Release(a, b) == 1 == Release(b, a) && Prune(a, b) == 0 && Precedes(a, b)
  {
    var x, y := Decimal(TWO53), Decimal(TWO53 + 1);
    DecimalIs(TWO53);
    DecimalIs(TWO53 + 1);
    EqualAsDoubles();
    hide Number, Value, Canonical, Numeric, Decimal;
    CanonicalValid(x);
    CanonicalValid(y);
    ClashingIdents(x, y);
    LastFieldBelow(x, y);
  }

  lemma ClashingIdents(x: Ident, y: Ident)
    requires Canonical(x) && Canonical(y) && Numeric(x) && Numeric(y) && Value(x) < Value(y) && Number(Value(x)) == Number(Value(y))
    ensures ReleaseIdents([x], [y], 0) == 1 == ReleaseIdents([y], [x], 0) && PruneIdents([x], [y], 0) == 0
  {
    hide Number, Value, Canonical, Numeric;
    assert PartOf(x) == PartOf(y);
    assert PruneIdents([x], [y], 0) == PruneIdents([x], [y], 1);
  }

  lemma LastFieldBelow(x: Ident, y: Ident)
    requires Numeric(x) && Numeric(y) && Value(x) < Value(y)
    ensures Precedes(Version(1, 0, 0, Some([x]), None), Version(1, 0, 0, Some([y]), None))
  {
    hide Value;
    var f, g := Fields(Version(1, 0, 0, Some([x]), None)), Fields(Version(1, 0, 0, Some([y]), None));
    assert f[3] == Field(Num(Value(x))) && g[3] == Field(Num(Value(y)));
    hide Fields;
    assert DifferAt(f, g, 3) && BelowAt(f, g, 3);
  }

  /** With core numbers the order can even turn round: 9007199254740992.1.0 is below
      9007199254740993.0.0, and the pruner puts it above. */
  lemma LargeCoreTurnsRound()
    ensures var a, b := Version(TWO53, 1, 0, None, None), Version(TWO53 + 1, 0, 0, None, None);
            Valid(a) && Valid(b) && Precedes(a, b) && Prune(a, b) > 0
  {
    var a, b := Version(TWO53, 1, 0, None, None), Version(TWO53 + 1, 0, 0, None, None);
    EqualAsDoubles();
    SmallExact(0);
    SmallExact(1);
    hide Number;
    assert DifferAt(Fields(a), Fields(b), 0) && BelowAt(Fields(a), Fields(b), 0);
  }

  /** Or come out right by accident: 9007199254740992.0.0 and 9007199254740993.1.0. */
  lemma LargeCoreRecovers()
    ensures var a, b := Version(TWO53, 0, 0, None, None), Version(TWO53 + 1, 1, 0, None, None);
            Valid(a) && Valid(b) && Blurred(a, b) && Agrees(a, b)
  {
    var a, b := Version(TWO53, 0, 0, None, None), Version(TWO53 + 1, 1, 0, None, None);
    EqualAsDoubles();
    SmallExact(0);
    SmallExact(1);
    hide Number;
    PruneAgreesExactly(a, b);
    OneDifference(Fields(a), Fields(b), FirstDifference(a, b), 0);
    OneDifference(Doubles(Fields(a)), Doubles(Fields(b)), FirstAsDoubles(a, b), 1);
  }

  lemma CanonicalValid(s: string)
    requires Canonical(s)
    ensures ValidIdent(s) && Numeric(s)
  {}
}
