/** Versions and the three range forms of component references. */
module Semver {
  import opened Common
  import opened Text

  type u64 = n: nat | n < 0x1_0000_0000_0000_0000

  datatype Version = Version(major: u64, minor: u64, patch: u64)

  predicate AtMost(a: Version, b: Version) {
    || a.major < b.major
    || (a.major == b.major && (a.minor < b.minor || (a.minor == b.minor && a.patch <= b.patch)))
  }

  /** A field of a version: decimal digits that fit in 64 bits. */
  function ParseField(s: string): Option<u64> {
    if Digits(s) && DecimalValue(s) < 0x1_0000_0000_0000_0000 then Some(DecimalValue(s)) else None
  }

  function ParseVersion(s: string): Option<Version> {
    var parts := Split(s, '.');
    if |parts| != 3 then None
    else
      match (ParseField(parts[0]), ParseField(parts[1]), ParseField(parts[2]))
      case (Some(a), Some(b), Some(c)) => Some(Version(a, b, c))
      case _ => None
  }

  function Display(v: Version): string { Decimal(v.major) + ['.'] + (Decimal(v.minor) + ['.'] + Decimal(v.patch)) }

  lemma DigitsWithout(s: string, c: char)
    requires Digits(s) && !IsDigit(c)
    ensures Without(s, c)
  {
  }

  lemma FieldRoundTrip(n: u64)
    ensures ParseField(Decimal(n)) == Some(n)
  {
    DecimalRoundTrip(n);
  }

  /** Printing a version and parsing it back gives the version. */
  lemma VersionRoundTrip(v: Version)
    ensures ParseVersion(Display(v)) == Some(v)
  {
    ThreeFields(Decimal(v.major), Decimal(v.minor), Decimal(v.patch));
    FieldRoundTrip(v.major);
    FieldRoundTrip(v.minor);
    FieldRoundTrip(v.patch);
  }

  /** The text of three fields. */
  function Dotted(a: string, b: string, c: string): string { a + ['.'] + (b + ['.'] + c) }

  /** Decimal digits that stand for a number. */
  predicate Reads(s: string, n: u64) { Digits(s) && DecimalValue(s) == n }

  lemma ThreeFields(a: string, b: string, c: string)
    requires Digits(a) && Digits(b) && Digits(c)
    ensures Split(Dotted(a, b, c), '.') == [a, b, c]
  {
    DigitsWithout(a, '.');
    DigitsWithout(b, '.');
    DigitsWithout(c, '.');
    SplitAt(a, '.', b + ['.'] + c);
    SplitAt(b, '.', c);
    SplitPlain(c, '.');
  }

  lemma JoinedThree(a: string, b: string, c: string)
    ensures Joined([a, b, c], '.') == Dotted(a, b, c)
  {
    assert [a, b, c][1..] == [b, c] && [b, c][1..] == [c] && Joined([c], '.') == c;
  }

  lemma ThreeParts(s: string, parts: seq<string>)
    requires parts == Split(s, '.') && |parts| == 3
    ensures s == Dotted(parts[0], parts[1], parts[2])
  {
    JoinedSplit(s, '.');
    JoinedThree(parts[0], parts[1], parts[2]);
    assert parts == [parts[0], parts[1], parts[2]];
  }

  /** A text is a version exactly when it is three fields of decimal digits, each of a number that
      fits in 64 bits, with dots between them; leading zeros are allowed. */
  lemma ParseVersionIff(s: string, v: Version)
    ensures ParseVersion(s) == Some(v) <==>
      exists a, b, c :: s == Dotted(a, b, c) && Reads(a, v.major) && Reads(b, v.minor) && Reads(c, v.patch)
  {
    var parts := Split(s, '.');
    if ParseVersion(s) == Some(v) {
      ThreeParts(s, parts);
      assert Reads(parts[0], v.major) && Reads(parts[1], v.minor) && Reads(parts[2], v.patch);
    }
    if a, b, c :| s == Dotted(a, b, c) && Reads(a, v.major) && Reads(b, v.minor) && Reads(c, v.patch) {
      ThreeFields(a, b, c);
    }
  }

  lemma DisplayWithoutAt(v: Version)
    ensures Without(Display(v), '@')
  {
    DigitsWithout(Decimal(v.major), '@');
    DigitsWithout(Decimal(v.minor), '@');
    DigitsWithout(Decimal(v.patch), '@');
  }

  // ---------------------------------------------------------------- ranges

  datatype Range = Exact(base: Version) | Caret(base: Version) | Tilde(base: Version)

  function ParseRange(s: string): Option<Range> {
    if s != [] && s[0] == '^' then (match ParseVersion(s[1..]) case Some(v) => Some(Caret(v)) case None => None)
    else if s != [] && s[0] == '~' then (match ParseVersion(s[1..]) case Some(v) => Some(Tilde(v)) case None => None)
    else match ParseVersion(s) case Some(v) => Some(Exact(v)) case None => None
  }

  predicate Matches(r: Range, v: Version) {
    match r
    case Exact(base) => v == base
    case Tilde(base) => AtMost(base, v) && v.major == base.major && v.minor == base.minor
    case Caret(base) =>
      AtMost(base, v) &&
      if base.major > 0 then v.major == base.major
      else if base.minor > 0 then v.major == 0 && v.minor == base.minor
      else v == base
  }

  /** The first version beyond a range, as three numbers of any size. */
  function Ceiling(r: Range): (nat, nat, nat) {
    match r
    case Exact(b) => (b.major, b.minor, b.patch + 1)
    case Tilde(b) => (b.major, b.minor + 1, 0)
    case Caret(b) =>
      if b.major > 0 then (b.major + 1, 0, 0) else if b.minor > 0 then (0, b.minor + 1, 0) else (0, 0, b.patch + 1)
  }

  predicate Below(v: Version, c: (nat, nat, nat)) {
    v.major < c.0 || (v.major == c.0 && (v.minor < c.1 || (v.minor == c.1 && v.patch < c.2)))
  }

  /** Every range is an interval of versions: from its base up to its ceiling. */
  lemma RangeIsInterval(r: Range, v: Version)
    ensures Matches(r, v) <==> AtMost(r.base, v) && Below(v, Ceiling(r))
  {
  }

  /** Whatever lies between two matching versions matches. */
  lemma RangesAreConvex(r: Range, a: Version, v: Version, b: Version)
    requires Matches(r, a) && Matches(r, b) && AtMost(a, v) && AtMost(v, b)
    ensures Matches(r, v)
  {
    RangeIsInterval(r, a);
    RangeIsInterval(r, b);
    RangeIsInterval(r, v);
  }
}
