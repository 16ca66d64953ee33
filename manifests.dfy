/** crates/cli/manifests/mod.rs: the three-part version of a package
    manifest, its bumps, its text form, its lenient parser and the validity
    test applied to version strings. */
module Manifests {
  import opened Wrappers
  import opened Text

  /** The value of a `Version`: major, minor and patch as unsigned numbers. */
  datatype SemVer = SemVer(major: nat, minor: nat, patch: nat)

  /** Precedence of versions: major first, then minor, then patch. */
  predicate Precedes(v: SemVer, w: SemVer) {
    v.major < w.major
    || (v.major == w.major && v.minor < w.minor)
    || (v.major == w.major && v.minor == w.minor && v.patch < w.patch)
  }

  /** What `bump_patch`, `bump_minor` and `bump_major` make of a version. */
  function NextPatch(v: SemVer): SemVer { SemVer(v.major, v.minor, v.patch + 1) }
  function NextMinor(v: SemVer): SemVer { SemVer(v.major, v.minor + 1, 0) }
  function NextMajor(v: SemVer): SemVer { SemVer(v.major + 1, 0, 0) }

  /** Every bump moves the version strictly forward, and each is the smallest
      step of its kind: nothing lies between the old version and the bumped
      one among the versions that agree with it on the parts kept. */
  lemma BumpsAdvance(v: SemVer)
    ensures Precedes(v, NextPatch(v)) && Precedes(v, NextMinor(v)) && Precedes(v, NextMajor(v))
    ensures Precedes(NextPatch(v), NextMinor(v)) && Precedes(NextMinor(v), NextMajor(v))
    ensures forall w: SemVer :: w.major == v.major && w.minor == v.minor && Precedes(v, w) ==> w == NextPatch(v) || Precedes(NextPatch(v), w)
  {
  }

  /** Precedence is a strict order. */
  lemma PrecedesStrict(u: SemVer, v: SemVer, w: SemVer)
    ensures !Precedes(v, v)
    ensures Precedes(u, v) && Precedes(v, w) ==> Precedes(u, w)
    ensures Precedes(u, v) ==> !Precedes(v, u)
  {
  }

  // ---------------------------------------------------------------------
  // Text form

  /** `to_string`: `format!("{}.{:0>1}.{:0>1}", ..)`. Padding to width one
      never adds a digit, so each part is its plain numeral. */
  function Format(v: SemVer): string {
    Decimal(v.major) + "." + Decimal(v.minor) + "." + Decimal(v.patch)
  }

  /** `from_str`: the value of the first part, of the second and of the last,
      each 0 when it does not parse. `data.get(1).unwrap()` panics when the
      text has no '.', which the precondition rules out. */
  function Parse(s: string): (v: SemVer)
    requires '.' in s
  {
    var parts := Split(s, '.');
    SemVer(ParseUsize(parts[0]).GetOr(0), ParseUsize(parts[1]).GetOr(0),
           ParseUsize(parts[|parts| - 1]).GetOr(0))
  }

  lemma NumeralHasNoDot(n: nat)
    ensures '.' !in Decimal(n)
  {
    var d := Decimal(n);
    assert forall i :: 0 <= i < |d| ==> d[i] != '.';
  }

  /** The parts of a three-part text without further dots. */
  lemma SplitThree(a: string, b: string, c: string)
    requires '.' !in a && '.' !in b && '.' !in c
    ensures Split(a + "." + b + "." + c, '.') == [a, b, c]
  {
    assert a + "." + b + "." + c == a + ['.'] + (b + ['.'] + c);
    SplitAtFirstSeparator(a, b + ['.'] + c, '.');
    SplitAtFirstSeparator(b, c, '.');
    SplitWithoutSeparator(c, '.');
  }

  /** `from_str` inverts `to_string`. */
  lemma ParseFormat(v: SemVer)
    ensures '.' in Format(v) && Parse(Format(v)) == v
  {
    NumeralHasNoDot(v.major);
    NumeralHasNoDot(v.minor);
    NumeralHasNoDot(v.patch);
    SplitThree(Decimal(v.major), Decimal(v.minor), Decimal(v.patch));
  }

  /** Three runs of digits parse to their values, leading zeros and all (the
      test versions "1.0.1", "1.00.0", "1.100.1", "2.53.1" and "1.00.01" are
      of this form). */
  lemma ParseThree(a: string, b: string, c: string)
    requires a != [] && b != [] && c != [] && AllDigits(a) && AllDigits(b) && AllDigits(c)
    ensures '.' in a + "." + b + "." + c
    ensures Parse(a + "." + b + "." + c) == SemVer(DigitsValue(a), DigitsValue(b), DigitsValue(c))
  {
    assert '.' !in a && '.' !in b && '.' !in c by {
      assert forall i :: 0 <= i < |a| ==> a[i] != '.';
      assert forall i :: 0 <= i < |b| ==> b[i] != '.';
      assert forall i :: 0 <= i < |c| ==> c[i] != '.';
    }
    SplitThree(a, b, c);
    assert (a + "." + b + "." + c)[|a|] == '.';
  }

  /** A two-part text takes its patch from the last part, which is also the
      minor part: "1.5" reads as 1.5.5. */
  lemma ParseTwo(a: string, b: string)
    requires '.' !in a && '.' !in b
    ensures '.' in a + "." + b
    ensures Parse(a + "." + b) == SemVer(ParseUsize(a).GetOr(0), ParseUsize(b).GetOr(0), ParseUsize(b).GetOr(0))
  {
    assert a + "." + b == a + ['.'] + b;
    SplitAtFirstSeparator(a, b, '.');
    SplitWithoutSeparator(b, '.');
    assert (a + "." + b)[|a|] == '.';
  }

  /** Parts that do not parse count as 0. */
  lemma ParseLenient(a: string, b: string, c: string)
    requires '.' !in a && '.' !in b && '.' !in c
    requires ParseUsize(a).None? && ParseUsize(b).None? && ParseUsize(c).None?
    ensures '.' in a + "." + b + "." + c
    ensures Parse(a + "." + b + "." + c) == SemVer(0, 0, 0)
  {
    SplitThree(a, b, c);
    assert (a + "." + b + "." + c)[|a|] == '.';
  }

  /** A numeral below ten is one character long. */
  lemma ShortNumeral(n: nat)
    requires n < 10
    ensures |Decimal(n)| == 1
  {
    DecimalDropLast(n);
  }

  /** The text form of 1.0.1 has five characters, so it is not the "1.00.01"
      that the `to_string` test of mod.rs expects. */
  lemma FormatOfOneZeroOne()
    ensures |Format(SemVer(1, 0, 1))| == 5 && Format(SemVer(1, 0, 1)) != "1.00.01"
  {
    ShortNumeral(1);
    ShortNumeral(0);
  }

  // ---------------------------------------------------------------------
  // is_valid: `\d{1,2}\.\d+(\.\d+)?`, unanchored

  predicate DotDigitAt(s: string, k: nat) {
    k + 1 < |s| && s[k] == '.' && IsDigit(s[k + 1])
  }

  /** The pattern anchored at p. `\d{1,2}` first takes two digits and gives
      one back when no ".digit" follows them; `\d+` needs one digit to match
      and the optional group never stops a match, so neither is longer here. */
  predicate VersionAt(s: string, p: nat) {
    p < |s| && IsDigit(s[p])
    && ((p + 1 < |s| && IsDigit(s[p + 1]) && DotDigitAt(s, p + 2)) || DotDigitAt(s, p + 1))
  }

  /** Whether the pattern matches at p or at a later start. */
  predicate ValidFrom(s: string, p: nat)
    decreases |s| - p
  {
    VersionAt(s, p) || (p < |s| && ValidFrom(s, p + 1))
  }

  /** `is_valid`. */
  predicate IsValid(s: string) { ValidFrom(s, 0) }

  /** The characteristic of a matching text: a digit, a '.', a digit. */
  ghost predicate DigitDotDigit(s: string, i: nat) {
    i + 2 < |s| && IsDigit(s[i]) && s[i + 1] == '.' && IsDigit(s[i + 2])
  }

  lemma {:induction false} ValidFromWitness(s: string, p: nat) returns (i: nat)
    requires ValidFrom(s, p)
    ensures p <= i && DigitDotDigit(s, i)
    decreases |s| - p
  {
    if VersionAt(s, p) {
      if DotDigitAt(s, p + 1) {
        i := p;
      } else {
        i := p + 1;
      }
    } else {
      i := ValidFromWitness(s, p + 1);
    }
  }

  lemma {:induction false} ValidFromCovers(s: string, p: nat, i: nat)
    requires p <= i && DigitDotDigit(s, i)
    ensures ValidFrom(s, p)
    decreases i - p
  {
    if p < i {
      ValidFromCovers(s, p + 1, i);
    } else {
      assert VersionAt(s, p);
    }
  }

  /** A version text is valid exactly when it holds a digit, a '.' and a
      digit in a row. */
  lemma IsValidIff(s: string)
    ensures IsValid(s) <==> exists i: nat :: DigitDotDigit(s, i)
  {
    if IsValid(s) {
      var i := ValidFromWitness(s, 0);
    }
    if exists i: nat :: DigitDotDigit(s, i) {
      var i: nat :| DigitDotDigit(s, i);
      ValidFromCovers(s, 0, i);
    }
  }

  /** Every text form is valid. */
  lemma FormatIsValid(v: SemVer)
    ensures IsValid(Format(v))
  {
    var s := Format(v);
    var m := Decimal(v.major);
    var i := |m| - 1;
    assert s[i] == m[i] && s[i + 1] == '.' && s[i + 2] == Decimal(v.minor)[0];
    ValidFromCovers(s, 0, i);
  }

  /** The versions of the `check_version` test. */
  lemma CheckVersionExamples()
    ensures IsValid("1.0.1") && IsValid("1.100.24") && IsValid("1.0")
  {
    ValidFromCovers("1.0.1", 0, 0);
    ValidFromCovers("1.100.24", 0, 0);
    ValidFromCovers("1.0", 0, 0);
  }

  /** Texts without a digit-dot-digit are rejected. */
  lemma NotValidWithoutDot(s: string)
    requires '.' !in s
    ensures !IsValid(s)
  {
    IsValidIff(s);
    forall i: nat ensures !DigitDotDigit(s, i) {
      if i + 2 < |s| {
        assert s[i + 1] in s;
      }
    }
  }

  // ---------------------------------------------------------------------
  // The mutable version

  /** `Version`, whose bumps change it in place. usize overflow is not
      modelled. */
  class Version {
    var major: nat
    var minor: nat
    var patch: nat

    /** `Version::new`. */
    constructor (major: nat, minor: nat, patch: nat)
      ensures Value() == SemVer(major, minor, patch)
    {
      this.major := major;
      this.minor := minor;
      this.patch := patch;
    }

    function Value(): SemVer
      reads this
    {
      SemVer(major, minor, patch)
    }

    /** `bump_minor`: minor up by one and patch back to 0. */
    method BumpMinor()
      modifies this
      ensures Value() == NextMinor(old(Value()))
    {
      minor := minor + 1;
      patch := 0;
    }

    /** `bump_patch`. */
    method BumpPatch()
      modifies this
      ensures Value() == NextPatch(old(Value()))
    {
      patch := patch + 1;
    }

    /** `bump_major`: major up by one, minor and patch back to 0. */
    method BumpMajor()
      modifies this
      ensures Value() == NextMajor(old(Value()))
    {
      patch := 0;
      minor := 0;
      major := major + 1;
    }

    /** `to_string`: the text "major.minor.patch" in plain decimals, which is
        valid and which `from_str` reads back as this version. */
    function ToString(): (s: string)
      reads this
      ensures s == Format(Value())
      ensures '.' in s && Parse(s) == Value() && IsValid(s)
    {
      ParseFormat(Value());
      FormatIsValid(Value());
      Format(Value())
    }

    /** `from_str`: never an error; the precondition rules out the panic on a
        text without '.'. */
    static method FromStr(s: string) returns (r: Result<Version, ()>)
      requires '.' in s
      ensures r.Ok? && fresh(r.value) && r.value.Value() == Parse(s)
    {
      var v := Parse(s);
      var version := new Version(v.major, v.minor, v.patch);
      return Ok(version);
    }
  }
}
