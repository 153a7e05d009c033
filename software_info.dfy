/**
 * The software versions page of yanfui (yanfui/utils/software_info.py): each tool's
 * command is run, a failing command or an empty output makes the tool "Not Available", and
 * otherwise the version is cut out of the output in the tool's own way. Running a command
 * is an input: `run` gives its exit status and its standard output.
 */
module SoftwareInfo {

  import opened Wrappers
  import opened Strings

  datatype CommandResult = CommandResult(exitCode: int, stdout: string)

  /** The entry of one tool: `{'Status': ..., 'Version': ...}`. */
  datatype ToolInfo = ToolInfo(status: string, version: string)

  /** The `IndexError` a parse raises when the output lacks the token it picks. */
  datatype ParseError = IndexError(software: string)

  /** A tool's name and the shell command that prints its version. */
  type Command = (string, string)

  /** The tools and their commands, in the order they are run. */
  const Commands: seq<Command> := [
    ("AWS CLI", "aws --version"),
    ("Nextflow", "nextflow -v"),
    ("Java", "java --version | head -n 1"),
    ("Docker", "docker info | grep '^ Version'"),
    ("Apptainer", "apptainer version"),
    ("Singularity", "singularity version")
  ]

  const NotAvailable: ToolInfo := ToolInfo("Not Available", "N/A")

  /** A stripped string has no white space at either end, and stripping it again changes nothing. */
  lemma StripShape(s: string)
    ensures var t := Strip(s); t == [] || (!IsSpace(t[0]) && !IsSpace(t[|t| - 1]))
    ensures Strip(Strip(s)) == Strip(s)
  {
    var r := RStrip(s);
    var t := LStrip(r);
    if t != [] {
      assert t[|t| - 1] == r[|r| - 1];
    }
    StripNoop(t);
  }

  /** Stripping a string with no white space at either end changes nothing. */
  lemma StripNoop(s: string)
    requires s == [] || (!IsSpace(s[0]) && !IsSpace(s[|s| - 1]))
    ensures Strip(s) == s
  {
  }

  /** `get_command_output(command)`: the stripped output of a command that succeeds, else `None`. */
  function CommandOutput(r: CommandResult): (out: Option<string>)
    ensures out.Some? <==> r.exitCode == 0
    ensures out.Some? ==> out.value == Strip(r.stdout)
    ensures out.Some? && out.value != [] ==> !IsSpace(out.value[0]) && !IsSpace(out.value[|out.value| - 1])
  {
    StripShape(r.stdout);
    if r.exitCode == 0 then Some(Strip(r.stdout)) else None
  }

  /**
   * The version cut out of a tool's output: the last space-separated token for Docker and
   * Nextflow, the part after the first `/` of the first token for the AWS CLI, the second
   * token for Java, the whole output for the others; each stripped.
   */
  function Version(software: string, output: string): (r: Result<string, ParseError>)
    ensures software == "AWS CLI" ==> (r.Err? <==> '/' !in Split(output, ' ')[0])
    ensures software == "Java" ==> (r.Err? <==> ' ' !in output)
    ensures software !in {"AWS CLI", "Java"} ==> r.Ok?
    ensures r.Err? ==> r.error == IndexError(software)
    ensures software !in {"AWS CLI", "Java", "Docker", "Nextflow"} ==> r == Ok(Strip(output))
  {
    var words := Split(output, ' ');
    SplitLength(output, ' ');
    CountZero(output, ' ');
    SplitLength(words[0], '/');
    CountZero(words[0], '/');
    if software == "Docker" || software == "Nextflow" then Ok(Strip(words[|words| - 1]))
    else if software == "AWS CLI" then
      var segments := Split(words[0], '/');
      if |segments| < 2 then Err(IndexError(software)) else Ok(Strip(segments[1]))
    else if software == "Java" then
      if |words| < 2 then Err(IndexError(software)) else Ok(Strip(words[1]))
    else Ok(Strip(output))
  }

  /** A version without spaces that ends the output is what Docker and Nextflow report. */
  lemma LastTokenVersion(software: string, before: string, v: string)
    requires software in {"Docker", "Nextflow"}
    requires ' ' !in v && (v == [] || (!IsSpace(v[0]) && !IsSpace(v[|v| - 1])))
    ensures Version(software, before + " " + v) == Ok(v)
  {
    LastPartAfter(before, ' ', v);
    StripNoop(v);
  }

  /** `aws-cli/<v> <rest>` reports `v`. */
  lemma AwsVersion(tool: string, v: string, rest: string)
    requires ' ' !in tool && '/' !in tool && ' ' !in v && '/' !in v
    requires v == [] || (!IsSpace(v[0]) && !IsSpace(v[|v| - 1]))
    ensures Version("AWS CLI", tool + "/" + v + " " + rest) == Ok(v)
  {
    var first := tool + "/" + v;
    assert tool + "/" + v + " " + rest == first + [' '] + rest;
    SplitCons(first, ' ', rest);
    SplitCons(tool, '/', v);
    SplitFree(v, '/');
    StripNoop(v);
  }

  /** `<name> <v> <rest>` reports `v` for Java. */
  lemma JavaVersion(name: string, v: string, rest: string)
    requires ' ' !in name && ' ' !in v
    requires v == [] || (!IsSpace(v[0]) && !IsSpace(v[|v| - 1]))
    ensures Version("Java", name + " " + v + " " + rest) == Ok(v)
  {
    assert name + " " + v + " " + rest == name + [' '] + (v + [' '] + rest);
    SplitCons(name, ' ', v + [' '] + rest);
    SplitCons(v, ' ', rest);
    StripNoop(v);
  }

  /** One tool's entry: "Not Available" for no output, else its version, unless the parse raises. */
  function Entry(software: string, out: Option<string>): (r: Result<ToolInfo, ParseError>)
    ensures (out.None? || out == Some("")) ==> r == Ok(NotAvailable)
    ensures r.Err? ==> software in {"AWS CLI", "Java"} && r.error == IndexError(software)
    ensures out.Some? && out.value != "" ==>
      (r.Ok? <==> Version(software, out.value).Ok?)
      && (r.Ok? ==> r.value == ToolInfo("Available", Version(software, out.value).value))
  {
    if out.None? || out.value == "" then Ok(NotAvailable)
    else
      match Version(software, out.value)
      case Err(e) => Err(e)
      case Ok(v) => Ok(ToolInfo("Available", v))
  }

  /** What running one command of the table gives for its tool. */
  function ToolEntry(run: string -> CommandResult): Command -> Result<ToolInfo, ParseError>
  {
    (cmd: Command) => Entry(cmd.0, CommandOutput(run(cmd.1)))
  }

  /**
   * The `versions` dictionary after the given commands, in order, each tool's entry from
   * `entry`: at most one entry per command, and the last command's entry is its tool's.
   */
  function VersionsOf(cmds: seq<Command>, entry: Command -> Result<ToolInfo, ParseError>)
    : (r: Result<map<string, ToolInfo>, ParseError>)
    ensures r.Ok? ==> |r.value| <= |cmds|
    ensures r.Ok? && |cmds| > 0 ==>
      entry(cmds[|cmds| - 1]).Ok? && cmds[|cmds| - 1].0 in r.value
      && r.value[cmds[|cmds| - 1].0] == entry(cmds[|cmds| - 1]).value
  {
    if |cmds| == 0 then Ok(map[])
    else
      match VersionsOf(cmds[..|cmds| - 1], entry)
      case Err(e) => Err(e)
      case Ok(m) =>
        match entry(cmds[|cmds| - 1])
        case Err(e) => Err(e)
        case Ok(info) => Ok(m[cmds[|cmds| - 1].0 := info])
  }

  predicate DistinctNames(cmds: seq<Command>)
  {
    forall i, j :: 0 <= i < j < |cmds| ==> cmds[i].0 != cmds[j].0
  }

  /** The result is an error exactly when some tool's entry is, and then it is that tool's error. */
  lemma {:induction false} VersionsOk(cmds: seq<Command>, entry: Command -> Result<ToolInfo, ParseError>)
    ensures VersionsOf(cmds, entry).Ok? <==> forall i :: 0 <= i < |cmds| ==> entry(cmds[i]).Ok?
    ensures VersionsOf(cmds, entry).Err? ==>
      exists i :: 0 <= i < |cmds| && entry(cmds[i]) == Err(VersionsOf(cmds, entry).error)
  {
    if |cmds| > 0 {
      var init := cmds[..|cmds| - 1];
      VersionsOk(init, entry);
      assert forall i :: 0 <= i < |init| ==> init[i] == cmds[i];
      if VersionsOf(init, entry).Err? {
        var i :| 0 <= i < |init| && entry(init[i]) == Err(VersionsOf(init, entry).error);
        assert entry(cmds[i]) == Err(VersionsOf(cmds, entry).error);
      }
    }
  }

  /** The tools listed are exactly the tools of the commands. */
  lemma {:induction false} VersionsKeys(cmds: seq<Command>, entry: Command -> Result<ToolInfo, ParseError>)
    requires VersionsOf(cmds, entry).Ok?
    ensures VersionsOf(cmds, entry).value.Keys == (set i | 0 <= i < |cmds| :: cmds[i].0)
  {
    if |cmds| > 0 {
      var last := |cmds| - 1;
      var init := cmds[..last];
      VersionsKeys(init, entry);
      assert VersionsOf(cmds, entry).value == VersionsOf(init, entry).value[cmds[last].0 := entry(cmds[last]).value];
      ToolNamesSnoc(cmds);
    }
  }

  /** The tool names of a non-empty list are those of all but its last command, plus the last. */
  lemma ToolNamesSnoc(cmds: seq<Command>)
    requires |cmds| > 0
    ensures var init := cmds[..|cmds| - 1];
      (set i | 0 <= i < |cmds| :: cmds[i].0) == (set i | 0 <= i < |init| :: init[i].0) + {cmds[|cmds| - 1].0}
  {
    var last := |cmds| - 1;
    var init := cmds[..last];
    var before := set i | 0 <= i < |init| :: init[i].0;
    var after := set i | 0 <= i < |cmds| :: cmds[i].0;
    forall n | n in after ensures n in before + {cmds[last].0} {
      var i :| 0 <= i < |cmds| && cmds[i].0 == n;
      if i < last {
        assert init[i].0 == n;
      }
    }
    forall n | n in before ensures n in after {
      var i :| 0 <= i < |init| && init[i].0 == n;
      assert cmds[i].0 == n;
    }
  }

  /** With distinct tool names, every tool's entry is the entry of its own command. */
  lemma {:induction false} EveryToolListed(cmds: seq<Command>, entry: Command -> Result<ToolInfo, ParseError>)
    requires DistinctNames(cmds) && VersionsOf(cmds, entry).Ok?
    ensures forall i :: 0 <= i < |cmds| ==>
      entry(cmds[i]).Ok? && cmds[i].0 in VersionsOf(cmds, entry).value
      && VersionsOf(cmds, entry).value[cmds[i].0] == entry(cmds[i]).value
  {
    if |cmds| > 0 {
      var last := |cmds| - 1;
      var init := cmds[..last];
      assert DistinctNames(init) by {
        forall i, j | 0 <= i < j < |init| ensures init[i].0 != init[j].0 {
          assert init[i] == cmds[i] && init[j] == cmds[j];
        }
      }
      EveryToolListed(init, entry);
      var m := VersionsOf(init, entry).value;
      assert VersionsOf(cmds, entry).value == m[cmds[last].0 := entry(cmds[last]).value];
      forall i | 0 <= i < last
        ensures entry(cmds[i]).Ok? && cmds[i].0 in VersionsOf(cmds, entry).value
             && VersionsOf(cmds, entry).value[cmds[i].0] == entry(cmds[i]).value
      {
        assert init[i] == cmds[i];
        assert cmds[i].0 != cmds[last].0;
      }
    }
  }

  /** A listed tool is "Not Available" exactly when its command gave no output. */
  lemma EntryStatus(software: string, out: Option<string>)
    requires Entry(software, out).Ok?
    ensures Entry(software, out).value.status == "Not Available" <==> out.None? || out.value == ""
  {
  }

  /** The command table names six different tools. */
  lemma CommandNames()
    ensures DistinctNames(Commands)
    ensures (set k | 0 <= k < |Commands| :: Commands[k].0)
         == {"AWS CLI", "Nextflow", "Java", "Docker", "Apptainer", "Singularity"}
  {
    assert Commands[0].0 == "AWS CLI" && Commands[1].0 == "Nextflow" && Commands[2].0 == "Java";
    assert Commands[3].0 == "Docker" && Commands[4].0 == "Apptainer" && Commands[5].0 == "Singularity";
  }

  /**
   * With the real commands every tool is listed, and a tool is "Not Available" exactly when
   * its command fails or prints only white space.
   */
  lemma NotAvailableIff(run: string -> CommandResult, i: nat)
    requires i < |Commands| && VersionsOf(Commands, ToolEntry(run)).Ok?
    ensures VersionsOf(Commands, ToolEntry(run)).value.Keys
         == {"AWS CLI", "Nextflow", "Java", "Docker", "Apptainer", "Singularity"}
    ensures var r := run(Commands[i].1);
      VersionsOf(Commands, ToolEntry(run)).value[Commands[i].0].status == "Not Available"
      <==> r.exitCode != 0 || Strip(r.stdout) == ""
  {
    CommandNames();
    VersionsKeys(Commands, ToolEntry(run));
    EveryToolListed(Commands, ToolEntry(run));
    var cmd := Commands[i];
    assert ToolEntry(run)(cmd) == Entry(cmd.0, CommandOutput(run(cmd.1)));
    EntryStatus(cmd.0, CommandOutput(run(cmd.1)));
  }

  /** Only the AWS CLI and Java parses can raise. */
  lemma OnlyTwoParsesRaise(run: string -> CommandResult)
    ensures VersionsOf(Commands, ToolEntry(run)).Err? ==>
      VersionsOf(Commands, ToolEntry(run)).error in {IndexError("AWS CLI"), IndexError("Java")}
  {
    var entry := ToolEntry(run);
    VersionsOk(Commands, entry);
    if VersionsOf(Commands, entry).Err? {
      var i :| 0 <= i < |Commands| && entry(Commands[i]) == Err(VersionsOf(Commands, entry).error);
      var cmd := Commands[i];
      assert entry(cmd) == Entry(cmd.0, CommandOutput(run(cmd.1)));
    }
  }

  /** A parse that raises stops the loop: later tools do not change the error. */
  lemma {:induction false} ErrExtends(cmds: seq<Command>, entry: Command -> Result<ToolInfo, ParseError>, i: nat)
    requires i <= |cmds| && VersionsOf(cmds[..i], entry).Err?
    ensures VersionsOf(cmds, entry) == VersionsOf(cmds[..i], entry)
  {
    if i < |cmds| {
      var init := cmds[..|cmds| - 1];
      assert init[..i] == cmds[..i];
      ErrExtends(init, entry, i);
    } else {
      assert cmds[..i] == cmds;
    }
  }

  /** The body of the loop for one tool with some output. */
  method ParseOutput(software: string, output: string) returns (r: Result<ToolInfo, ParseError>)
    requires output != ""
    ensures r == Entry(software, Some(output))
  {
    var version: string;
    if software == "Docker" {
      version := Strip(LastPart(output, ' '));
    } else if software == "AWS CLI" {
      var segments := Split(Split(output, ' ')[0], '/');
      if |segments| < 2 {
        return Err(IndexError(software));
      }
      version := Strip(segments[1]);
    } else if software == "Java" {
      var words := Split(output, ' ');
      if |words| < 2 {
        return Err(IndexError(software));
      }
      version := Strip(words[1]);
    } else if software == "Nextflow" {
      version := Strip(LastPart(output, ' '));
    } else {
      version := Strip(output);
    }
    return Ok(ToolInfo("Available", version));
  }

  /** One pass of the loop: run the tool's command and make its entry. */
  method RunTool(run: string -> CommandResult, cmd: Command) returns (info: Result<ToolInfo, ParseError>)
    ensures info == ToolEntry(run)(cmd)
  {
    var (software, command) := cmd;
    var output := CommandOutput(run(command));
    if output.Some? && output.value != "" {
      info := ParseOutput(software, output.value);
    } else {
      info := Ok(NotAvailable);
    }
  }

  /** `get_software_versions()`: each tool of the table in turn. */
  method GetSoftwareVersions(run: string -> CommandResult) returns (r: Result<map<string, ToolInfo>, ParseError>)
    ensures r == VersionsOf(Commands, ToolEntry(run))
  {
    r := CollectVersions(Commands, run);
  }

  /** The loop of `get_software_versions()`: each tool's entry stored under its name. */
  method CollectVersions(cmds: seq<Command>, run: string -> CommandResult)
    returns (r: Result<map<string, ToolInfo>, ParseError>)
    ensures r == VersionsOf(cmds, ToolEntry(run))
  {
    ghost var entry := ToolEntry(run);
    var versions: map<string, ToolInfo> := map[];
    var i := 0;
    while i < |cmds|
      invariant 0 <= i <= |cmds|
      invariant VersionsOf(cmds[..i], entry) == Ok(versions)
    {
      ghost var done := cmds[..i + 1];
      assert done[..i] == cmds[..i] && done[i] == cmds[i];
      var info := RunTool(run, cmds[i]);
      if info.Err? {
        ErrExtends(cmds, entry, i + 1);
        return Err(info.error);
      }
      versions := versions[cmds[i].0 := info.value];
      i := i + 1;
    }
    assert cmds[..i] == cmds;
    return Ok(versions);
  }
}
