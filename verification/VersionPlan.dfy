/** Release identities, frozen plans and their numeric projections
    (scripts/version_plan.py). Policy digests are opaque 64-digit hex strings. */
module VersionPlan {
  import opened Text

  const MAX_BUILD := 2_100_000_000
  const MAX_APPLE_BUILD := 99_990_000
  const ATTEMPTS := 1_000_000
  const MAX_PEP440 := 0xFFFF_FFFF_FFFF_FFFE

  datatype Sequence = NoSequence | Number(n: int) | Stamp(text: string)

  /** One owned version input: which projection it shows, and under which prefix. */
  datatype Declaration = Declaration(value: string, ecosystem: string, prefix: string)

  datatype Policy = Policy(sha256: string, promotion: string, floor: int, files: seq<Declaration>)

  datatype Plan = Plan(
    base: string, version: string, channel: string, sequence: Sequence, tag: string,
    sourceSha: string, build: Option<int>, policySha: string, promotion: string)

  datatype Projections = Projections(
    base: string, full: string, package: string, build: Option<int>, appleBuild: Option<string>)

  datatype Field = TextField(s: string) | NumberField(n: int)

  predicate IsHex(s: string, n: nat) {
    |s| == n && forall c | c in s :: IsDigit(c) || 'a' <= c <= 'f'
  }

  function Split(s: string, sep: char): (parts: seq<string>)
    ensures |parts| > 0
    ensures forall p | p in parts :: sep !in p
  {
    if s == "" then [""]
    else
      var rest := Split(s[1..], sep);
      if s[0] == sep then [""] + rest
      else [[s[0]] + rest[0]] + rest[1..]
  }

  /** Splitting loses nothing but separators. */
  lemma {:induction false} SplitKeeps(s: string, sep: char, c: char)
    requires c in s && c != sep
    ensures exists i :: 0 <= i < |Split(s, sep)| && c in Split(s, sep)[i]
  {
    var rest := Split(s[1..], sep);
    if s[0] == sep {
      SplitKeeps(s[1..], sep, c);
      var i :| 0 <= i < |rest| && c in rest[i];
      assert Split(s, sep)[i + 1] == rest[i];
    } else if c == s[0] {
      assert c in Split(s, sep)[0];
    } else {
      SplitKeeps(s[1..], sep, c);
      var i :| 0 <= i < |rest| && c in rest[i];
      assert c in Split(s, sep)[i];
    }
  }

  /** `BASE`: strict X.Y.Z. */
  predicate IsBase(s: string) {
    var parts := Split(s, '.');
    |parts| == 3 && IsNumeral(parts[0]) && IsNumeral(parts[1]) && IsNumeral(parts[2])
  }

  /** `NIGHTLY`: fourteen timestamp digits, a run and an attempt. */
  predicate IsNightly(s: string) {
    var parts := Split(s, '.');
    && |parts| == 3
    && |parts[0]| == 14 && AllDigits(parts[0])
    && IsPositiveNumeral(parts[1]) && IsPositiveNumeral(parts[2])
  }

  /** The version string of an identity, or None where `_identity` raises. */
  function Identity(base: string, channel: string, sequence: Sequence): (version: Option<string>) {
    if !IsBase(base) then None
    else if channel == "stable" then
      if sequence == NoSequence then Some(base) else None
    else if channel == "nightly" then
      if sequence.Stamp? && IsNightly(sequence.text) then Some(base + "-" + channel + "." + sequence.text) else None
    else if channel == "beta" || channel == "rc" then
      if sequence.Number? && sequence.n > 0 then Some(base + "-" + channel + "." + Decimal(sequence.n)) else None
    else None
  }

  /** `Split` undoes joining two separator-free fields to whatever follows. */
  lemma {:induction false} SplitField(a: string, rest: string, sep: char)
    requires sep !in a
    ensures Split(a + [sep] + rest, sep) == [a] + Split(rest, sep)
  {
    if a == "" {
      assert ("" + [sep] + rest)[1..] == rest;
    } else {
      SplitField(a[1..], rest, sep);
      assert (a + [sep] + rest)[1..] == a[1..] + [sep] + rest;
      assert a == [a[0]] + a[1..];
    }
  }

  lemma {:induction false} SplitWhole(a: string, sep: char)
    requires sep !in a
    ensures Split(a, sep) == [a]
  {
    if a != "" {
      SplitWhole(a[1..], sep);
      assert a == [a[0]] + a[1..];
    }
  }

  lemma BaseHasNoDash(s: string)
    requires IsBase(s)
    ensures '-' !in s
  {
    if '-' in s {
      SplitKeeps(s, '.', '-');
    }
  }

  /** The nightly stamp built for a run is well formed and gives the run back. */
  lemma NightlyStamp(now: string, run: nat, attempt: nat)
    requires |now| == 14 && AllDigits(now) && run > 0 && attempt > 0
    ensures Split(now + "." + Decimal(run) + "." + Decimal(attempt), '.') == [now, Decimal(run), Decimal(attempt)]
    ensures IsNightly(now + "." + Decimal(run) + "." + Decimal(attempt))
  {
    var tail := Decimal(run) + "." + Decimal(attempt);
    assert now + "." + Decimal(run) + "." + Decimal(attempt) == now + ['.'] + tail;
    SplitField(now, tail, '.');
    SplitField(Decimal(run), Decimal(attempt), '.');
    SplitWhole(Decimal(attempt), '.');
  }

  function SequenceText(sequence: Sequence): (s: string) {
    match sequence
    case NoSequence => ""
    case Number(n) => if n > 0 then Decimal(n) else ""
    case Stamp(text) => text
  }

  /** Every version but a stable one is its base, a dash, its channel, a dot and its sequence. */
  lemma IdentityShape(base: string, channel: string, sequence: Sequence)
    requires Identity(base, channel, sequence).Some?
    ensures '-' !in base && '.' !in channel
    ensures var v := Identity(base, channel, sequence).value;
            if channel == "stable" then v == base && sequence == NoSequence
            else v == base + ['-'] + (channel + ['.'] + SequenceText(sequence))
  {
    BaseHasNoDash(base);
    assert base + "-" + channel + "." + SequenceText(sequence) == base + ['-'] + (channel + ['.'] + SequenceText(sequence));
  }

  lemma PrereleaseInjective(b1: string, c1: string, t1: string, b2: string, c2: string, t2: string)
    requires '-' !in b1 && '-' !in b2 && '.' !in c1 && '.' !in c2
    requires b1 + ['-'] + (c1 + ['.'] + t1) == b2 + ['-'] + (c2 + ['.'] + t2)
    ensures b1 == b2 && c1 == c2 && t1 == t2
  {
    SplitAtFirst(b1, b2, c1 + ['.'] + t1, c2 + ['.'] + t2, '-');
    SplitAtFirst(c1, c2, t1, t2, '.');
  }

  /** Only one identity renders to a given version. */
  lemma IdentityInjective(b1: string, c1: string, s1: Sequence, b2: string, c2: string, s2: Sequence)
    requires Identity(b1, c1, s1).Some?
    requires Identity(b1, c1, s1) == Identity(b2, c2, s2)
    ensures b1 == b2 && c1 == c2 && s1 == s2
  {
    IdentityShape(b1, c1, s1);
    IdentityShape(b2, c2, s2);
    var v := Identity(b1, c1, s1).value;
    assert c1 != "stable" ==> v[|b1|] == '-';
    assert c2 != "stable" ==> v[|b2|] == '-';
    if c1 != "stable" && c2 != "stable" {
      PrereleaseInjective(b1, c1, SequenceText(s1), b2, c2, SequenceText(s2));
      if s1.Number? {
        DecimalInjective(s1.n, s2.n);
      }
    }
  }

  /** `n // 10000 + 1`, `n // 100 % 100`, `n % 100` for the zero-based build. */
  function AppleTriple(build: int): (t: (int, int, int)) {
    var n := build - 1;
    (n / 10000 + 1, n / 100 % 100, n % 100)
  }

  predicate IsAppleTriple(t: (int, int, int)) {
    1 <= t.0 <= 9999 && 0 <= t.1 <= 99 && 0 <= t.2 <= 99
  }

  predicate TripleLess(a: (int, int, int), b: (int, int, int)) {
    a.0 < b.0 || (a.0 == b.0 && (a.1 < b.1 || (a.1 == b.1 && a.2 < b.2)))
  }

  function AppleText(t: (int, int, int)): (s: string)
    requires IsAppleTriple(t)
  {
    Decimal(t.0) + "." + Decimal(t.1) + "." + Decimal(t.2)
  }

  function NightlyNumber(run: int, attempt: int): (n: int) {
    run * ATTEMPTS + attempt
  }

  function Packaged(plan: Plan, ecosystem: string): (package: Option<string>)
    requires ValidPlan(plan)
  {
    if plan.channel == "rc" && plan.promotion == "promote-bytes" then Some(plan.base)
    else if ecosystem != "pep440" || plan.channel == "stable" then Some(plan.version)
    else if plan.channel == "beta" then Some(plan.base + "b" + Decimal(plan.sequence.n))
    else if plan.channel == "rc" then Some(plan.base + "rc" + Decimal(plan.sequence.n))
    else
      var parts := Split(plan.sequence.text, '.');
      var run, attempt := NumeralValue(parts[1]), NumeralValue(parts[2]);
      if attempt < ATTEMPTS && NightlyNumber(run, attempt) <= MAX_PEP440
      then Some(plan.base + ".dev" + Decimal(NightlyNumber(run, attempt)))
      else None
  }

  function Project(plan: Plan, ecosystem: string): (p: Option<Projections>)
    requires ValidPlan(plan)
  {
    if ecosystem != "semver" && ecosystem != "pep440" then None
    else
      var package := Packaged(plan, ecosystem);
      if package.None? then None
      else
        var apple := if plan.build.Some? && 0 < plan.build.value <= MAX_APPLE_BUILD
                     then Some(AppleText(AppleTriple(plan.build.value))) else None;
        Some(Projections(plan.base, plan.version, package.value, plan.build, apple))
  }

  /** The text or number one declaration must hold, or None where `projected_value` raises. */
  function ProjectedValue(plan: Plan, item: Declaration): (v: Option<Field>)
    requires ValidPlan(plan)
  {
    var p := Project(plan, item.ecosystem);
    if p.None? then None
    else if item.value == "build" then
      if p.value.build.None? then None
      else if item.prefix == "" then Some(NumberField(p.value.build.value))
      else if p.value.build.value < 0 then None
      else Some(TextField(item.prefix + Decimal(p.value.build.value)))
    else if item.value == "apple-build" then
      if p.value.appleBuild.None? then None else Some(TextField(item.prefix + p.value.appleBuild.value))
    else if item.value == "base" then Some(TextField(item.prefix + p.value.base))
    else if item.value == "full" then Some(TextField(item.prefix + p.value.full))
    else if item.value == "package" then Some(TextField(item.prefix + p.value.package))
    else None
  }

  predicate ValidPolicy(policy: Policy) {
    && IsHex(policy.sha256, 64)
    && policy.promotion in {"promote-bytes", "final-build"}
    && 0 <= policy.floor < MAX_BUILD
    && |policy.files| > 0
  }

  /** `validate_plan` without a policy: every field agrees with the identity. */
  predicate ValidPlan(plan: Plan) {
    && Identity(plan.base, plan.channel, plan.sequence) == Some(plan.version)
    && plan.tag == "v" + plan.version
    && IsHex(plan.sourceSha, 40)
    && IsHex(plan.policySha, 64)
    && plan.promotion in {"promote-bytes", "final-build"}
    && (plan.build.Some? ==> 0 < plan.build.value <= MAX_BUILD)
  }

  /** `validate_plan` bound to a policy and a source commit. */
  predicate BoundPlan(plan: Plan, policy: Policy, sourceSha: string) {
    && ValidPlan(plan)
    && ValidPolicy(policy)
    && plan.policySha == policy.sha256
    && plan.promotion == policy.promotion
    && (plan.build.Some? ==> plan.build.value > policy.floor)
    && (forall item | item in policy.files :: ProjectedValue(plan, item).Some?)
    && plan.sourceSha == sourceSha
  }

  function CreatePlan(base: string, channel: string, sequence: Sequence, sourceSha: string,
                      policy: Policy, build: Option<int>): (plan: Option<Plan>)
    ensures plan.Some? ==> BoundPlan(plan.value, policy, sourceSha)
    ensures plan.Some? ==> && plan.value.base == base && plan.value.channel == channel
                           && plan.value.sequence == sequence && plan.value.build == build
  {
    var version := Identity(base, channel, sequence);
    if !ValidPolicy(policy) || version.None? || !IsHex(sourceSha, 40) then None
    else if build.Some? && !(0 < build.value <= MAX_BUILD && build.value > policy.floor) then None
    else
      var plan := Plan(base, version.value, channel, sequence, "v" + version.value, sourceSha, build,
                       policy.sha256, policy.promotion);
      if forall item | item in policy.files :: ProjectedValue(plan, item).Some? then Some(plan) else None
  }

  /** Beta, RC and nightly tags name their whole identity; a stable tag names its base. */
  lemma TagNamesIdentity(p: Plan, q: Plan)
    requires ValidPlan(p) && ValidPlan(q) && p.tag == q.tag
    ensures p.base == q.base && p.channel == q.channel && p.sequence == q.sequence
  {
    assert p.version == p.tag[1..] && q.version == q.tag[1..];
    IdentityInjective(p.base, p.channel, p.sequence, q.base, q.channel, q.sequence);
  }

  /** The Apple projection is a bijection onto the legal component triples. */
  lemma AppleBijection(build: int, t: (int, int, int))
    ensures 1 <= build <= MAX_APPLE_BUILD ==> IsAppleTriple(AppleTriple(build))
    ensures IsAppleTriple(t) ==>
              var b := (t.0 - 1) * 10000 + t.1 * 100 + t.2 + 1;
              1 <= b <= MAX_APPLE_BUILD && AppleTriple(b) == t
    ensures IsAppleTriple(t) && 1 <= build <= MAX_APPLE_BUILD ==>
              (AppleTriple(build) == t <==> build == (t.0 - 1) * 10000 + t.1 * 100 + t.2 + 1)
  {
    AppleParts(build - 1);
    if IsAppleTriple(t) {
      AppleDigits(t.0 - 1, t.1, t.2);
    }
  }

  lemma AppleParts(n: int)
    ensures n == n / 10000 * 10000 + n / 100 % 100 * 100 + n % 100
    ensures 0 <= n < MAX_APPLE_BUILD ==> 0 <= n / 10000 <= 9998
  {
    assert n / 10000 == n / 100 / 100;
  }

  lemma AppleDigits(a: int, b: int, c: int)
    requires 0 <= b <= 99 && 0 <= c <= 99
    ensures var n := a * 10000 + b * 100 + c;
      n / 10000 == a && n / 100 % 100 == b && n % 100 == c
  {
    var n := a * 10000 + b * 100 + c;
    assert n / 100 == a * 100 + b;
    assert n / 10000 == n / 100 / 100;
  }

  lemma AppleOrder(a: int, b: int)
    requires 1 <= a <= MAX_APPLE_BUILD && 1 <= b <= MAX_APPLE_BUILD
    ensures a < b <==> TripleLess(AppleTriple(a), AppleTriple(b))
  {
    AppleBijection(a, AppleTriple(a));
    AppleBijection(b, AppleTriple(b));
  }

  lemma ThreeFields(a: string, b: string, c: string, x: string, y: string, z: string)
    requires '.' !in a && '.' !in b && '.' !in x && '.' !in y
    requires a + "." + b + "." + c == x + "." + y + "." + z
    ensures a == x && b == y && c == z
  {
    assert a + "." + b + "." + c == a + ['.'] + (b + ['.'] + c);
    assert x + "." + y + "." + z == x + ['.'] + (y + ['.'] + z);
    SplitAtFirst(a, x, b + ['.'] + c, y + ['.'] + z, '.');
    SplitAtFirst(b, y, c, z, '.');
  }

  /** The rendered Apple version still determines the build number. */
  lemma AppleTextInjective(a: int, b: int)
    requires 1 <= a <= MAX_APPLE_BUILD && 1 <= b <= MAX_APPLE_BUILD
    requires IsAppleTriple(AppleTriple(a)) && IsAppleTriple(AppleTriple(b))
    requires AppleText(AppleTriple(a)) == AppleText(AppleTriple(b))
    ensures a == b
  {
    var s, t := AppleTriple(a), AppleTriple(b);
    ThreeFields(Decimal(s.0), Decimal(s.1), Decimal(s.2), Decimal(t.0), Decimal(t.1), Decimal(t.2));
    DecimalInjective(s.0, t.0);
    DecimalInjective(s.1, t.1);
    DecimalInjective(s.2, t.2);
    AppleBijection(a, s);
    AppleBijection(b, t);
  }

  /** Nightly development numbers order and separate runs and attempts. */
  lemma NightlyNumberOrder(r1: nat, a1: nat, r2: nat, a2: nat)
    requires a1 < ATTEMPTS && a2 < ATTEMPTS
    ensures NightlyNumber(r1, a1) < NightlyNumber(r2, a2) <==> r1 < r2 || (r1 == r2 && a1 < a2)
    ensures NightlyNumber(r1, a1) == NightlyNumber(r2, a2) <==> r1 == r2 && a1 == a2
  {
  }

  /** Two accepted nightly packages of one base coincide only for one run and attempt. */
  lemma NightlyPackageInjective(p: Plan, q: Plan)
    requires ValidPlan(p) && ValidPlan(q) && p.channel == q.channel == "nightly" && p.base == q.base
    requires Packaged(p, "pep440").Some? && Packaged(p, "pep440") == Packaged(q, "pep440")
    ensures Split(p.sequence.text, '.')[1..] == Split(q.sequence.text, '.')[1..]
    ensures var s := Split(p.sequence.text, '.');
            NightlyNumber(NumeralValue(s[1]), NumeralValue(s[2])) <= MAX_PEP440
  {
    var s, t := Split(p.sequence.text, '.'), Split(q.sequence.text, '.');
    var m := NightlyNumber(NumeralValue(s[1]), NumeralValue(s[2]));
    var n := NightlyNumber(NumeralValue(t[1]), NumeralValue(t[2]));
    var head := p.base + ".dev";
    assert Packaged(p, "pep440").value[|head|..] == Decimal(m);
    assert Packaged(q, "pep440").value[|head|..] == Decimal(n);
    DecimalInjective(m, n);
    NightlyNumberOrder(NumeralValue(s[1]), NumeralValue(s[2]), NumeralValue(t[1]), NumeralValue(t[2]));
    NumeralInjective(s[1], t[1]);
    NumeralInjective(s[2], t[2]);
    assert s[1..] == [s[1], s[2]] && t[1..] == [t[1], t[2]];
  }

  /** A positive numeral has no leading zero, so its value determines it. */
  lemma {:induction false} NumeralInjective(a: string, b: string)
    requires IsPositiveNumeral(a) && IsPositiveNumeral(b) && NumeralValue(a) == NumeralValue(b)
    ensures a == b
  {
    NumeralPositive(a);
    NumeralPositive(b);
    var a', b' := a[..|a| - 1], b[..|b| - 1];
    assert a == a' + [a[|a| - 1]] && b == b' + [b[|b| - 1]];
    assert a[|a| - 1] == b[|b| - 1] && NumeralValue(a') == NumeralValue(b');
    if a' != "" {
      NumeralPositive(a');
    }
    if b' != "" {
      NumeralPositive(b');
    }
    if a' != "" && b' != "" {
      NumeralInjective(a', b');
    }
  }

  lemma {:induction false} NumeralPositive(a: string)
    requires IsPositiveNumeral(a)
    ensures NumeralValue(a) > 0
  {
    if |a| > 1 {
      NumeralPositive(a[..|a| - 1]);
    }
  }
}
