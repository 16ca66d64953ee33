/** crates/config/src/util.rs: the supported login shells, their rc files and
    `inject_env`, which sets a variable for the running process and appends
    an `export` line to the user's rc file, printing a warning instead when
    that cannot be done. The process environment and the file system are a
    class whose fields the operation updates. */
module ConfigUtil {
  import opened Wrappers

  datatype Shell = Bash | Zsh

  /** `Shell::try_from`: the shell's path as SHELL gives it. */
  function ShellFromPath(value: string): (r: Result<Shell, string>)
    ensures r == Ok(Bash) <==> value == "/bin/bash"
    ensures r == Ok(Zsh) <==> value == "/bin/zsh"
    ensures r.Err? <==> value != "/bin/bash" && value != "/bin/zsh"
    ensures r.Err? ==> r.error == "unsupported shell"
  {
    if value == "/bin/bash" then Ok(Bash)
    else if value == "/bin/zsh" then Ok(Zsh)
    else Err("unsupported shell")
  }

  /** The path under which each shell is accepted. */
  function ShellPath(s: Shell): string {
    match s
    case Bash => "/bin/bash"
    case Zsh => "/bin/zsh"
  }

  /** `Shell::to_string`: the name of the shell's rc file. */
  function RcFileName(s: Shell): (name: string)
    ensures |name| > 1 && name[0] == '.'
  {
    match s
    case Bash => ".bashrc"
    case Zsh => ".zshrc"
  }

  /** The rc file of each shell. */
  lemma RcFileTable()
    ensures RcFileName(Bash) == ".bashrc" && RcFileName(Zsh) == ".zshrc"
  {
  }

  /** Each shell is accepted under its path, and only there. */
  lemma ShellPathRoundTrip(s: Shell, value: string)
    ensures ShellFromPath(ShellPath(s)) == Ok(s)
    ensures ShellFromPath(value) == Ok(s) ==> value == ShellPath(s)
  {
  }

  /** Different shells use different rc files. */
  lemma RcFileNameInjective(s: Shell, s': Shell)
    requires RcFileName(s) == RcFileName(s')
    ensures s == s'
  {
    assert |RcFileName(Bash)| == 7 && |RcFileName(Zsh)| == 6;
  }

  /** Another path to zsh is still unsupported. */
  lemma OtherZshPathRejected()
    ensures ShellFromPath("/usr/bin/zsh") == Err("unsupported shell")
  {
    assert |"/usr/bin/zsh"| == 12;
  }

  /** `Path::join` of a relative name onto a directory: a '/' is inserted
      unless the directory is empty or already ends with one. */
  function JoinPath(dir: string, name: string): (path: string)
    ensures |name| <= |path| && path[|path| - |name|..] == name
    ensures dir == [] ==> path == name
  {
    if dir == [] || dir[|dir| - 1] == '/' then dir + name else dir + "/" + name
  }

  /** The line the user is asked to add, and that is appended to the rc file. */
  function ExportLine(key: string, value: string): string {
    "export " + key + "=" + value
  }

  /** `content.push_str(&format!("\nexport {key}={value}"))`. */
  function Appended(content: string, key: string, value: string): (r: string)
    ensures |r| == |content| + 1 + |ExportLine(key, value)|
  {
    content + "\n" + ExportLine(key, value)
  }

  /** The old content is kept as a prefix, after which come a newline and the
      export line and nothing else. */
  lemma AppendedKeepsContent(content: string, key: string, value: string)
    ensures var r := Appended(content, key, value);
            r[..|content|] == content && r[|content|] == '\n'
            && r[|content| + 1..] == ExportLine(key, value)
  {
  }

  /** The process environment and the files of the user. */
  class Environment {
    /** The process's environment variables. */
    var vars: map<string, string>
    /** The readable files and their contents. */
    var files: map<string, string>
    /** The paths a write to succeeds on. */
    const writable: set<string>
    /** The export lines of the warnings printed so far. */
    var warnings: seq<string>

    constructor (vars: map<string, string>, files: map<string, string>, writable: set<string>)
      ensures this.vars == vars && this.files == files && this.writable == writable && warnings == []
    {
      this.vars := vars;
      this.files := files;
      this.writable := writable;
      warnings := [];
    }

    /** The rc file `inject_env` updates under the given variables: the one of
        a supported SHELL inside HOME, when both are set. */
    static function RcPath(vars: map<string, string>): (p: Option<string>)
      ensures p.Some? <==> "SHELL" in vars && ShellFromPath(vars["SHELL"]).Ok? && "HOME" in vars
    {
      if "SHELL" in vars && "HOME" in vars then
        match ShellFromPath(vars["SHELL"])
        case Ok(shell) => Some(JoinPath(vars["HOME"], RcFileName(shell)))
        case Err(_) => None
      else None
    }

    /** `inject_env`. The variable is set first, so a key of SHELL or HOME
        already affects which rc file is chosen. Only an unset SHELL is an
        error; otherwise either the rc file gets the export line or a warning
        with that line is printed, and the result is Ok. */
    method InjectEnv(key: string, value: string) returns (r: Result<(), string>)
      modifies this
      ensures vars == old(vars)[key := value]
      ensures r.Err? <==> "SHELL" !in vars
      ensures r.Err? ==> r.error == "environment variable not found"
                         && files == old(files) && warnings == old(warnings)
      ensures r.Ok? ==>
                var p := RcPath(vars);
                if p.Some? && p.value in old(files) && p.value in writable then
                  files == old(files)[p.value := Appended(old(files)[p.value], key, value)]
                  && warnings == old(warnings)
                else
                  files == old(files) && warnings == old(warnings) + [ExportLine(key, value)]
    {
      vars := vars[key := value];
      if "SHELL" !in vars {
        return Err("environment variable not found");
      }
      var shell := ShellFromPath(vars["SHELL"]);
      if shell.Ok? && "HOME" in vars {
        var rcfile := JoinPath(vars["HOME"], RcFileName(shell.value));
        if rcfile in files {
          var content := files[rcfile];
          content := content + "\n" + ExportLine(key, value);
          if rcfile in writable {
            files := files[rcfile := content];
            return Ok(());
          }
        }
      }
      warnings := warnings + [ExportLine(key, value)];
      r := Ok(());
    }
  }

  /** The rc file of the `test_inject_env_zsh` setting: zsh and a home
      directory give `.zshrc` inside it. */
  lemma ZshRcPath(home: string, vars: map<string, string>)
    requires home != [] && home[|home| - 1] != '/'
    requires "SHELL" in vars && vars["SHELL"] == "/bin/zsh" && "HOME" in vars && vars["HOME"] == home
    ensures Environment.RcPath(vars) == Some(home + "/" + ".zshrc")
  {
  }
}
