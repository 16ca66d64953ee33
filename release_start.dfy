/** crates/cli/subcommands/release/start.rs: start a release by bumping the
    manifest's version, starting a git-flow release named after the new
    version and letting npm bump the package. The two external commands are
    modelled by the requests they make and by their outcomes, which are
    inputs. */
module ReleaseStart {
  import opened Wrappers
  import opened Text
  import opened Manifests

  datatype ReleaseKind = Patch | Minor | Major {
    /** The `strum::Display` name: the variant's name. */
    function DisplayName(): string {
      match this
      case Patch => "Patch"
      case Minor => "Minor"
      case Major => "Major"
    }

    /** The argument given to `npm version`: the display name in lower case. */
    function NpmArgument(): (arg: string)
      ensures arg == Lower(DisplayName())
      ensures arg in {"patch", "minor", "major"}
    {
      match this
      case Patch => "patch"
      case Minor => "minor"
      case Major => "major"
    }
  }

  /** The kinds are told apart by their npm argument. */
  lemma NpmArgumentInjective(k: ReleaseKind, k': ReleaseKind)
    requires k.NpmArgument() == k'.NpmArgument()
    ensures k == k'
  {
  }

  /** The version a release of this kind makes of v. */
  function Bumped(kind: ReleaseKind, v: SemVer): SemVer {
    match kind
    case Patch => NextPatch(v)
    case Minor => NextMinor(v)
    case Major => NextMajor(v)
  }

  /** The manifest: its name and version; the other fields are kept as they
      are and not modelled. */
  datatype PackageJson = PackageJson(name: string, version: string)

  /** The external commands `start` runs. */
  datatype Command =
    | FlowReleaseStart(version: string)
    | Npm(args: seq<string>)

  /** `start`. The manifest is read from the given value; the bumped version
      goes only into a local copy, into the release name and into the printed
      line, which is the result. `from_str` never fails, so the "invalid
      version" error of the source cannot occur; it panics on a version
      without '.', which the precondition rules out. */
  method Start(pkg: PackageJson, kind: ReleaseKind, flowOutcome: Result<(), string>, npmOutcome: Result<(), string>)
    returns (r: Result<string, string>, commands: seq<Command>)
    requires '.' in pkg.version
    ensures var next := Format(Bumped(kind, Parse(pkg.version)));
            && (flowOutcome.Err? ==> r == Err(flowOutcome.error) && commands == [FlowReleaseStart(next)])
            && (flowOutcome.Ok? ==>
                  commands == [FlowReleaseStart(next), Npm(["version", kind.NpmArgument()])]
                  && (npmOutcome.Err? ==> r == Err(npmOutcome.error))
                  && (npmOutcome.Ok? ==> r == Ok("version bumped from " + pkg.version + " to: " + next)))
  {
    var prevVersion := pkg.version;
    var parsed := Version.FromStr(pkg.version);
    var version := parsed.value;
    match kind {
      case Patch => version.BumpPatch();
      case Minor => version.BumpMinor();
      case Major => version.BumpMajor();
    }
    var newPkg := pkg.(version := version.ToString());
    commands := [FlowReleaseStart(version.ToString())];
    if flowOutcome.Err? {
      return Err(flowOutcome.error), commands;
    }
    var command := Lower(kind.DisplayName());
    commands := commands + [Npm(["version", command])];
    if npmOutcome.Err? {
      return Err(npmOutcome.error), commands;
    }
    r := Ok("version bumped from " + prevVersion + " to: " + newPkg.version);
  }

  /** A release always moves the version forward, and the new version's text
      reads back as exactly the bumped version. */
  lemma ReleaseAdvances(version: string, kind: ReleaseKind)
    requires '.' in version
    ensures var next := Bumped(kind, Parse(version));
            Precedes(Parse(version), next)
            && '.' in Format(next) && Parse(Format(next)) == next && IsValid(Format(next))
  {
    var next := Bumped(kind, Parse(version));
    BumpsAdvance(Parse(version));
    ParseFormat(next);
    FormatIsValid(next);
  }

  /** Repeated releases of one version strictly increase it. */
  lemma ReleasesCompose(version: string, k1: ReleaseKind, k2: ReleaseKind)
    requires '.' in version
    ensures Precedes(Parse(version), Bumped(k2, Parse(Format(Bumped(k1, Parse(version))))))
  {
    var v := Parse(version);
    var w := Bumped(k1, v);
    ParseFormat(w);
    BumpsAdvance(v);
    BumpsAdvance(w);
    PrecedesStrict(v, w, Bumped(k2, w));
  }
}
