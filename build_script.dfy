/** build.rs: the build script picks the cargo profile out of OUT_DIR and, for
    a release build, fills the Homebrew formula template. Reading OUT_DIR,
    reading the template and writing the formula are inputs and outputs of
    the functions here. */
module BuildScript {
  import opened Wrappers
  import opened Text

  datatype Profile = Debug | Release | Test

  /** The profile's name in OUT_DIR and in `from_str`. */
  function ProfileName(p: Profile): string {
    match p
    case Debug => "debug"
    case Release => "release"
    case Test => "test"
  }

  /** `Profile::from_str`. */
  function ProfileFromStr(s: string): (r: Result<Profile, string>)
    ensures r.Ok? <==> s == "debug" || s == "release" || s == "test"
    ensures r.Ok? ==> ProfileName(r.value) == s
    ensures r.Err? ==> r.error == "unable to convert profile: \"" + s + "\""
  {
    if s == "debug" then Ok(Debug)
    else if s == "release" then Ok(Release)
    else if s == "test" then Ok(Test)
    else Err("unable to convert profile: \"" + s + "\"")
  }

  /** `from_str` reads every profile name back. */
  lemma ProfileRoundTrip(p: Profile)
    ensures ProfileFromStr(ProfileName(p)) == Ok(p)
  {
  }

  // ---------------------------------------------------------------------
  // get_profile: `target/(release|test|debug)`, unanchored

  const TargetDir := "target/"

  /** The pattern anchored at p and its capture. The alternatives are tried
      in order; they start with different letters, so at most one applies. */
  function ProfileAt(s: string, p: nat): (r: Option<string>)
    requires p <= |s|
    ensures r.Some? ==> StartsWith(s[p..], TargetDir) && StartsWith(s[p + |TargetDir|..], r.value)
    ensures r.Some? ==> r.value == "release" || r.value == "test" || r.value == "debug"
  {
    if StartsWith(s[p..], TargetDir) then
      var rest := s[p + |TargetDir|..];
      if StartsWith(rest, "release") then Some("release")
      else if StartsWith(rest, "test") then Some("test")
      else if StartsWith(rest, "debug") then Some("debug")
      else None
    else None
  }

  function ProfileCaptures(s: string): nat -> Option<string> {
    (p: nat) => if p <= |s| then ProfileAt(s, p) else None
  }

  /** The capture of the leftmost match. */
  function CaptureProfile(s: string): (r: Option<string>)
    ensures r.Some? ==> r.value == "release" || r.value == "test" || r.value == "debug"
  {
    var r := Leftmost(ProfileCaptures(s), 0, |s|);
    LeftmostAt(ProfileCaptures(s), 0, |s|);
    var i := LeftmostIndex(ProfileCaptures(s), 0, |s|);
    assert r.Some? ==> ProfileCaptures(s)(i) == ProfileAt(s, i);
    r
  }

  /** There is no capture exactly when the pattern matches nowhere. */
  lemma CaptureProfileNone(s: string)
    ensures CaptureProfile(s).None? <==> forall i :: 0 <= i <= |s| ==> ProfileAt(s, i).None?
  {
    LeftmostNone(ProfileCaptures(s), 0, |s|);
    forall i | 0 <= i <= |s| ensures ProfileCaptures(s)(i) == ProfileAt(s, i) {
    }
  }

  /** A capture is the one of the leftmost match: it is the capture at some
      position, and no earlier position matches. */
  lemma CaptureProfileSome(s: string)
    ensures CaptureProfile(s).Some? ==>
              exists p: nat :: p <= |s| && ProfileAt(s, p) == CaptureProfile(s)
                && forall p' :: 0 <= p' < p ==> ProfileAt(s, p').None?
  {
    var f := ProfileCaptures(s);
    LeftmostAt(f, 0, |s|);
    LeftmostFirst(f, 0, |s|);
    if CaptureProfile(s).Some? {
      var i := LeftmostIndex(f, 0, |s|);
      assert f(i) == ProfileAt(s, i);
      forall p' | 0 <= p' < i ensures ProfileAt(s, p').None? {
        assert f(p') == ProfileAt(s, p');
      }
    }
  }

  /** `get_profile`. Both `unwrap`s on the capture panic when OUT_DIR holds no
      match, which the precondition rules out; the final `unwrap` of
      `from_str` cannot fail. */
  function GetProfile(outDir: string): (p: Profile)
    requires CaptureProfile(outDir).Some?
    ensures ProfileName(p) == CaptureProfile(outDir).value
  {
    match ProfileFromStr(CaptureProfile(outDir).value)
    case Ok(p) => p
  }

  /** A match right at "target/" followed by a profile name. */
  lemma ProfileAtTarget(w: string, p: Profile, rest: string)
    ensures var s := w + TargetDir + ProfileName(p) + rest;
            ProfileAt(s, |w|) == Some(ProfileName(p))
  {
    var s := w + TargetDir + ProfileName(p) + rest;
    var tail := ProfileName(p) + rest;
    assert s[|w|..] == TargetDir + tail;
    assert StartsWith(s[|w|..], TargetDir);
    assert s[|w| + |TargetDir|..] == tail;
    assert StartsWith(tail, ProfileName(p));
    assert tail[0] == ProfileName(p)[0];
  }

  /** An OUT_DIR in which no match starts before a "target/<profile>" gives
      that profile. */
  lemma ProfileOfOutDir(w: string, p: Profile, rest: string)
    requires forall i :: 0 <= i < |w| ==> ProfileAt(w + TargetDir + ProfileName(p) + rest, i).None?
    ensures CaptureProfile(w + TargetDir + ProfileName(p) + rest) == Some(ProfileName(p))
    ensures GetProfile(w + TargetDir + ProfileName(p) + rest) == p
  {
    var s := w + TargetDir + ProfileName(p) + rest;
    var f := ProfileCaptures(s);
    forall j | 0 <= j < |w| ensures f(j).None? {
    }
    LeftmostSkip(f, 0, |w|, |s|);
    ProfileAtTarget(w, p, rest);
    assert f(|w|) == ProfileAt(s, |w|);
  }

  // ---------------------------------------------------------------------
  // generate_formula

  /** A template as text runs and `{{name}}` placeholders. */
  datatype Piece = Text(text: string) | Hole(name: string)

  function Placeholder(name: string): string { "{{" + name + "}}" }

  function Flatten(t: seq<Piece>): string {
    if t == [] then []
    else
      (match t[0]
       case Text(x) => x
       case Hole(n) => Placeholder(n))
      + Flatten(t[1..])
  }

  /** Text runs hold no '{', names no brace at all. */
  predicate Plain(x: string) { '{' !in x }
  predicate HoleName(n: string) { '{' !in n && '}' !in n }

  predicate WellFormed(t: seq<Piece>) {
    forall i :: 0 <= i < |t| ==>
      match t[i]
      case Text(x) => Plain(x)
      case Hole(n) => HoleName(n)
  }

  /** Every placeholder `name` filled with v. */
  function Fill(t: seq<Piece>, name: string, v: string): (r: seq<Piece>)
    ensures |r| == |t|
    ensures forall i :: 0 <= i < |t| ==> r[i] == (if t[i] == Hole(name) then Text(v) else t[i])
  {
    if t == [] then []
    else [if t[0] == Hole(name) then Text(v) else t[0]] + Fill(t[1..], name, v)
  }

  /** A placeholder of another name is not an occurrence, nor is anything
      starting inside it. */
  lemma OtherHoleSkipped(m: string, n: string, rest: string, rep: string)
    requires HoleName(m) && HoleName(n) && m != n
    ensures ReplaceAll(Placeholder(m) + rest, Placeholder(n), rep) == Placeholder(m) + ReplaceAll(rest, Placeholder(n), rep)
  {
    var pat := Placeholder(n);
    var s := Placeholder(m) + rest;
    assert !StartsWith(s, pat) by {
      assert |m| < |n| ==> s[2 + |m|] == '}' && pat[2 + |m|] == n[|m|] && n[|m|] != '}';
      assert |m| > |n| ==> s[2 + |n|] == m[|n|] && m[|n|] != '}' && pat[2 + |n|] == '}';
      assert |m| == |n| ==> s[2..2 + |n|] == m && pat[2..2 + |n|] == n;
      assert |m| == |n| && |pat| <= |s| ==> s[..|pat|][2..2 + |n|] == s[2..2 + |n|];
      assert |pat| <= |s| && |m| < |n| ==> s[..|pat|][2 + |m|] == s[2 + |m|];
      assert |pat| <= |s| && |m| > |n| ==> s[..|pat|][2 + |n|] == s[2 + |n|];
    }
    var s1 := s[1..];
    assert s1 == "{" + (m + "}}" + rest);
    assert !StartsWith(s1, pat) by {
      if |pat| <= |s1| {
        assert s1[1] != '{' by {
          if m != [] { assert s1[1] == m[0]; } else { assert s1[1] == '}'; }
        }
        assert s1[..|pat|][1] == s1[1];
      }
    }
    assert Plain(m + "}}") by {
      assert forall i :: 0 <= i < |m + "}}"| ==> (m + "}}")[i] != '{';
    }
    ReplaceAllSkipsPrefix(m + "}}", rest, pat, rep);
    assert s1[1..] == m + "}}" + rest;
    assert s == [s[0]] + s1;
    assert s1 == [s1[0]] + s1[1..];
  }

  /** One step of the chain: replacing `{{name}}` with a brace-free value in a
      well-formed template fills exactly those placeholders. */
  lemma {:induction false} ReplaceFills(t: seq<Piece>, name: string, v: string)
    requires WellFormed(t) && HoleName(name) && Plain(v)
    ensures ReplaceAll(Flatten(t), Placeholder(name), v) == Flatten(Fill(t, name, v))
    ensures WellFormed(Fill(t, name, v))
  {
    if t != [] {
      ReplaceFills(t[1..], name, v);
      var rest := Flatten(t[1..]);
      assert Fill(t, name, v)[1..] == Fill(t[1..], name, v);
      match t[0]
      case Text(x) =>
        assert Plain(x);
        ReplaceAllSkipsPrefix(x, rest, Placeholder(name), v);
      case Hole(m) =>
        assert HoleName(m);
        if m == name {
          ReplaceAllHead(Placeholder(name), rest, v);
        } else {
          OtherHoleSkipped(m, name, rest, v);
        }
    }
  }

  /** The `.replace` chain of `generate_formula`, in its order; `{{shasum}}` is
      not replaced (that line is commented out in the source). */
  function GenerateFormula(template: string, bin: string, repo: string, description: string, version: string): string {
    var a := ReplaceAll(template, Placeholder("bin"), bin);
    var b := ReplaceAll(a, Placeholder("description"), description);
    var c := ReplaceAll(b, Placeholder("homepage"), repo);
    var d := ReplaceAll(c, Placeholder("repo"), repo);
    ReplaceAll(d, Placeholder("version"), version)
  }

  /** The template with its placeholders filled: homepage and repo both get
      the repository URL. */
  function Filled(t: seq<Piece>, bin: string, repo: string, description: string, version: string): seq<Piece> {
    Fill(Fill(Fill(Fill(Fill(t, "bin", bin), "description", description), "homepage", repo), "repo", repo), "version", version)
  }

  lemma PlaceholderNames()
    ensures HoleName("bin") && HoleName("description") && HoleName("homepage")
    ensures HoleName("repo") && HoleName("version")
  {
  }

  /** With brace-free values, the chain fills every placeholder of the five
      names and leaves every other placeholder (such as `{{shasum}}`) and every
      text run as they are. */
  lemma GenerateFormulaFills(t: seq<Piece>, bin: string, repo: string, description: string, version: string)
    requires WellFormed(t) && Plain(bin) && Plain(repo) && Plain(description) && Plain(version)
    ensures GenerateFormula(Flatten(t), bin, repo, description, version)
         == Flatten(Filled(t, bin, repo, description, version))
  {
    PlaceholderNames();
    var t1 := Fill(t, "bin", bin);
    var t2 := Fill(t1, "description", description);
    var t3 := Fill(t2, "homepage", repo);
    var t4 := Fill(t3, "repo", repo);
    ReplaceFills(t, "bin", bin);
    ReplaceFills(t1, "description", description);
    ReplaceFills(t2, "homepage", repo);
    ReplaceFills(t3, "repo", repo);
    ReplaceFills(t4, "version", version);
  }

  /** What the filled template holds at each piece. */
  lemma FilledPieces(t: seq<Piece>, bin: string, repo: string, description: string, version: string, i: nat)
    requires i < |t|
    ensures var r := Filled(t, bin, repo, description, version);
            |r| == |t|
            && (t[i] == Hole("bin") ==> r[i] == Text(bin))
            && (t[i] == Hole("description") ==> r[i] == Text(description))
            && (t[i] == Hole("homepage") ==> r[i] == Text(repo))
            && (t[i] == Hole("repo") ==> r[i] == Text(repo))
            && (t[i] == Hole("version") ==> r[i] == Text(version))
            && (t[i].Text? || t[i].name !in {"bin", "description", "homepage", "repo", "version"} ==> r[i] == t[i])
  {
  }

  /** The chain is sequential: a placeholder inside an earlier value is
      rewritten by a later step. */
  lemma LaterStepRewritesEarlierValue(version: string)
    requires Plain(version)
    ensures GenerateFormula(Placeholder("bin"), Placeholder("version"), [], [], version) == version
  {
    PlaceholderNames();
    var bin, ver := Placeholder("bin"), Placeholder("version");
    assert bin + [] == bin && ver + [] == ver;
    ReplaceAllHead(bin, [], ver);
    OtherHoleSkipped("version", "description", [], []);
    OtherHoleSkipped("version", "homepage", [], []);
    OtherHoleSkipped("version", "repo", [], []);
    ReplaceAllHead(ver, [], version);
    assert version + [] == version;
  }

  // ---------------------------------------------------------------------
  // main

  /** The layout of formula_template.rb: its placeholders in file order,
      between runs of plain text. */
  function FormulaLayout(texts: seq<string>): (t: seq<Piece>)
    requires |texts| == 7
    ensures |t| == 13
  {
    [Text(texts[0]), Hole("description"), Text(texts[1]), Hole("homepage"),
     Text(texts[2]), Hole("repo"), Text(texts[3]), Hole("bin"),
     Text(texts[4]), Hole("shasum"), Text(texts[5]), Hole("version"), Text(texts[6])]
  }

  /** The formula of build.rs is the filled layout. */
  lemma FormulaOfTemplate(texts: seq<string>, bin: string, repo: string, description: string, version: string)
    requires |texts| == 7 && forall i :: 0 <= i < 7 ==> Plain(texts[i])
    requires Plain(bin) && Plain(repo) && Plain(description) && Plain(version)
    ensures var t := FormulaLayout(texts);
            GenerateFormula(Flatten(t), bin, repo, description, version)
            == Flatten(Filled(t, bin, repo, description, version))
  {
    var t := FormulaLayout(texts);
    PlaceholderNames();
    assert HoleName("shasum");
    assert WellFormed(t) by {
      forall i | 0 <= i < 7 ensures t[2 * i] == Text(texts[i]) {
      }
    }
    GenerateFormulaFills(t, bin, repo, description, version);
  }

  /** In the filled layout the description, the repository URL (twice), the
      binary name and the version are in their places, `{{shasum}}` is still
      a placeholder and the text runs are as they were. */
  lemma FormulaFilledPlaces(texts: seq<string>, bin: string, repo: string, description: string, version: string)
    requires |texts| == 7
    ensures var r := Filled(FormulaLayout(texts), bin, repo, description, version);
            |r| == 13
            && r[1] == Text(description) && r[3] == Text(repo) && r[5] == Text(repo)
            && r[7] == Text(bin) && r[9] == Hole("shasum") && r[11] == Text(version)
            && forall i :: 0 <= i < 7 ==> r[2 * i] == Text(texts[i])
  {
    var t := FormulaLayout(texts);
    FilledPieces(t, bin, repo, description, version, 1);
    FilledPieces(t, bin, repo, description, version, 3);
    FilledPieces(t, bin, repo, description, version, 5);
    FilledPieces(t, bin, repo, description, version, 7);
    FilledPieces(t, bin, repo, description, version, 9);
    FilledPieces(t, bin, repo, description, version, 11);
    forall i | 0 <= i < 7
      ensures Filled(t, bin, repo, description, version)[2 * i] == Text(texts[i])
    {
      assert t[2 * i] == Text(texts[i]);
      FilledPieces(t, bin, repo, description, version, 2 * i);
    }
  }

  /** The file the build script writes. */
  datatype FileWrite = FileWrite(path: string, content: string)

  /** `generate_formula`: the template text (or the error reading it) and the
      package version are inputs; the result is the file to write,
      `{bin}.rb`. */
  function GenerateFormulaFile(template: Result<string, string>, bin: string, repo: string, description: string,
                               version: string): (r: Result<FileWrite, string>)
    ensures r.Ok? <==> template.Ok?
    ensures r.Ok? ==> r.value.path == bin + ".rb"
  {
    match template
    case Err(e) => Err(e)
    case Ok(text) => Ok(FileWrite(bin + ".rb", GenerateFormula(text, bin, repo, description, version)))
  }

  const Bin := "tpaws"
  const Repo := "https://github.com/rawnly/tpaws"
  const Description := "CLI to manage TargetProcess and AWS CodeCommit"

  /** `main`: nothing is written unless the profile is Release. */
  function BuildMain(outDir: string, template: Result<string, string>, version: string)
    : (r: Option<Result<FileWrite, string>>)
    requires CaptureProfile(outDir).Some?
    ensures r.Some? <==> GetProfile(outDir) == Release
    ensures r.Some? ==> r.value == GenerateFormulaFile(template, Bin, Repo, Description, version)
  {
    if GetProfile(outDir) == Release then Some(GenerateFormulaFile(template, Bin, Repo, Description, version))
    else None
  }
}
