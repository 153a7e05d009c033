/**
 * The line scanner that pulls `description` and `nextflowVersion` out of a pipeline's
 * `nextflow.config` (liteflow/utils/nf.py). The scanner reads the text line by line; it
 * takes `manifest.description = "…"` / `manifest.nextflowVersion = "…"` anywhere, and the
 * bare `description = "…"` / `nextflowVersion = "…"` forms only while it sits directly
 * inside a `manifest {` block. It stops at the first line that captures nothing once both
 * fields are non-empty, and finally strips double quotes from both ends of each value.
 */
module Manifest {

  import opened Wrappers
  import opened Strings

  predicate IsQuote(ch: char)
  {
    ch == '\'' || ch == '"'
  }

  /**
   * `re.match(r"^\s*NAME\s*=\s*['\"](.*)['\"]\s*$", line).group(1)` for a line without a
   * newline (every line of `content.split("\n")` is one): after optional blanks, NAME,
   * blanks, `=` and blanks comes an opening quote; the closing quote is the last non-blank
   * character of the line and comes after it; the group is everything in between. A match
   * needs the line, once left-stripped, to start with NAME.
   */
  function MatchAssign(line: string, name: string): (r: Option<string>)
    ensures r.Some? ==> StartsWith(LStrip(line), name)
  {
    AfterPrefixStarts(LStrip(line), name);
    match AfterPrefix(LStrip(line), name)
    case None => None
    case Some(t) =>
      match AfterEquals(t)
      case None => None
      case Some(w) => Unquote(w)
  }

  /** What follows blanks and `=` after the name, with surrounding blanks removed. */
  function AfterEquals(t: string): Option<string>
  {
    var u := LStrip(t);
    if |u| == 0 || u[0] != '=' then None else Some(RStrip(LStrip(u[1..])))
  }

  /** The text between an opening and a closing quote that end `w` on both sides. */
  function Unquote(w: string): Option<string>
  {
    if |w| >= 2 && IsQuote(w[0]) && IsQuote(w[|w| - 1]) then Some(w[1..|w| - 1]) else None
  }

  /** The rest of `s` after `prefix`, when `s` starts with it. */
  function AfterPrefix(s: string, prefix: string): Option<string>
  {
    if |prefix| == 0 then Some(s)
    else if |s| == 0 || s[0] != prefix[0] then None
    else AfterPrefix(s[1..], prefix[1..])
  }

  lemma {:induction false} AfterPrefixStarts(s: string, prefix: string)
    ensures AfterPrefix(s, prefix).Some? ==> StartsWith(s, prefix)
  {
    if |prefix| > 0 && |s| > 0 && s[0] == prefix[0] {
      AfterPrefixStarts(s[1..], prefix[1..]);
    }
  }

  lemma {:induction false} AfterPrefixOf(prefix: string, rest: string)
    ensures AfterPrefix(prefix + rest, prefix) == Some(rest)
  {
    if |prefix| > 0 {
      assert (prefix + rest)[0] == prefix[0] && (prefix + rest)[1..] == prefix[1..] + rest;
      AfterPrefixOf(prefix[1..], rest);
    } else {
      assert prefix + rest == rest;
    }
  }

  /** `re.match(r"^\s*manifest\s*\{\s*$", line)`: the line opens the manifest block. */
  predicate OpensManifest(line: string)
  {
    var t := Strip(line);
    StartsWith(t, "manifest") && LStrip(t[8..]) == "{"
  }

  /** The loop variables of `parse_nf_manifest` (the unused counters are left out). */
  datatype Scan = Scan(inScope: bool, open: int, description: string, nextflowVersion: string)

  const Start: Scan := Scan(false, 0, "", "")

  /** The result dictionary `{'description': …, 'nextflowVersion': …}`. */
  datatype ManifestInfo = ManifestInfo(description: string, nextflowVersion: string)

  /**
   * What a line can do to the scan, decided from the line alone: an assignment qualified
   * with `manifest.`, the block opener, or an ordinary line, which (read directly inside
   * the block) may assign a bare field and moves the bracket depth by `delta`.
   */
  datatype LineKind =
    | TopDescription(value: string)
    | TopVersion(value: string)
    | OpenBlock
    | Body(description: Option<string>, nextflowVersion: Option<string>, delta: int)

  /**
   * A line assigns a field only when it matches the qualified or the bare pattern for it,
   * and a qualified assignment wins over everything else on the line.
   */
  function Classify(line: string): (k: LineKind)
    ensures AssignsDescription(k) ==>
      MatchAssign(line, "manifest.description").Some? || MatchAssign(line, "description").Some?
    ensures AssignsVersion(k) ==>
      MatchAssign(line, "manifest.nextflowVersion").Some? || MatchAssign(line, "nextflowVersion").Some?
    ensures MatchAssign(line, "manifest.description").Some? ==> k.TopDescription?
    ensures k.OpenBlock? ==> OpensManifest(line)
  {
    var top := MatchAssign(line, "manifest.description");
    var topVersion := MatchAssign(line, "manifest.nextflowVersion");
    if top.Some? then TopDescription(top.value)
    else if topVersion.Some? then TopVersion(topVersion.value)
    else if OpensManifest(line) then OpenBlock
    else Body(MatchAssign(line, "description"), MatchAssign(line, "nextflowVersion"),
              Count(line, '{') - Count(line, '}'))
  }

  /**
   * One pass of the loop body: the new variables and whether the loop breaks. Only an
   * ordinary line can break the loop, and only once both fields are non-empty; a line that
   * assigns neither field leaves it as it was.
   */
  function Step(st: Scan, k: LineKind): (r: (Scan, bool))
    ensures r.1 ==> k.Body? && r.0.description != "" && r.0.nextflowVersion != ""
    ensures !AssignsDescription(k) ==> r.0.description == st.description
    ensures !AssignsVersion(k) ==> r.0.nextflowVersion == st.nextflowVersion
  {
    match k
    case TopDescription(v) => (st.(description := v), false)
    case TopVersion(v) => (st.(nextflowVersion := v), false)
    case OpenBlock => (st.(inScope := true, open := 1), false)
    case Body(d, v, delta) =>
      var scoped := st.inScope && st.open == 1;
      if scoped && d.Some? then (st.(open := st.open + delta, description := d.value), false)
      else if scoped && v.Some? then (st.(open := st.open + delta, nextflowVersion := v.value), false)
      else
        var st1 := if scoped then st.(open := st.open + delta) else st;
        var st2 := if st1.inScope && st1.open == 0 then st1.(inScope := false) else st1;
        (st2, st2.description != "" && st2.nextflowVersion != "")
  }

  /** The kinds of the lines, in order. */
  function Kinds(lines: seq<string>): (ks: seq<LineKind>)
    ensures |ks| == |lines|
    ensures forall i :: 0 <= i < |lines| ==> ks[i] == Classify(lines[i])
  {
    if |lines| == 0 then [] else [Classify(lines[0])] + Kinds(lines[1..])
  }

  /**
   * The loop over the remaining lines, from the variables `st`. Without a `manifest {` line
   * a scan outside the block never enters it.
   */
  function ScanKinds(st: Scan, ks: seq<LineKind>): (r: Scan)
    ensures !st.inScope && (forall i :: 0 <= i < |ks| ==> !ks[i].OpenBlock?) ==> !r.inScope
    decreases |ks|
  {
    if |ks| == 0 then st
    else
      var r := Step(st, ks[0]);
      if r.1 then r.0 else ScanKinds(r.0, ks[1..])
  }

  /** `parse_nf_manifest(content)`: both values are free of surrounding double quotes. */
  function ParseManifest(content: string): (r: ManifestInfo)
    ensures r.description == [] || (r.description[0] != '"' && r.description[|r.description| - 1] != '"')
    ensures r.nextflowVersion == [] || (r.nextflowVersion[0] != '"' && r.nextflowVersion[|r.nextflowVersion| - 1] != '"')
  {
    var st := ScanKinds(Start, Kinds(Split(content, '\n')));
    var description := StripChar(st.description, '"');
    var nextflowVersion := StripChar(st.nextflowVersion, '"');
    ManifestInfo(description, nextflowVersion)
  }

  /**
   * One pass of the loop body of `parse_nf_manifest` over `line`, from the loop variables
   * `st`; the source's `continue` is a return without a stop.
   */
  method ScanLine(st: Scan, line: string) returns (next: Scan, stop: bool)
    ensures (next, stop) == Step(st, Classify(line))
  {
    var top, topVersion := MatchAssign(line, "manifest.description"), MatchAssign(line, "manifest.nextflowVersion");
    var opensBlock := OpensManifest(line);
    var description, version := MatchAssign(line, "description"), MatchAssign(line, "nextflowVersion");
    var opens: int, closes: int := Count(line, '{'), Count(line, '}');
    ghost var k := Classify(line);
    if top.Some? {
      assert k == TopDescription(top.value);
      return st.(description := top.value), false;
    }
    if topVersion.Some? {
      assert k == TopVersion(topVersion.value);
      return st.(nextflowVersion := topVersion.value), false;
    }
    if opensBlock {
      assert k == OpenBlock;
      return st.(inScope := true, open := 1), false;
    }
    assert k == Body(description, version, opens - closes);
    next, stop := ScanBody(st, description, version, opens, closes);
  }

  /**
   * The rest of the loop body, for a line that is neither a `manifest.` assignment nor the
   * opener: `description` and `version` are its bare-assignment matches, `opens` and
   * `closes` its counts of `{` and `}`.
   */
  method ScanBody(st: Scan, description: Option<string>, version: Option<string>, opens: int, closes: int)
    returns (next: Scan, stop: bool)
    ensures (next, stop) == Step(st, Body(description, version, opens - closes))
  {
    next := st;
    if st.inScope && st.open == 1 {
      next := next.(open := next.open + opens - closes);
      if description.Some? {
        return next.(description := description.value), false;
      }
      if version.Some? {
        return next.(nextflowVersion := version.value), false;
      }
    }
    if next.inScope && next.open == 0 {
      next := next.(inScope := false);
    }
    stop := next.description != "" && next.nextflowVersion != "";
  }

  /** `parse_nf_manifest(content)`: the loop over the lines, with its early exit. */
  method ParseNfManifest(content: string) returns (r: ManifestInfo)
    ensures r == ParseManifest(content)
  {
    var lines := Split(content, '\n');
    ghost var ks := Kinds(lines);
    var st := Start;
    var i := 0;
    while i < |lines|
      invariant 0 <= i <= |lines|
      invariant ScanKinds(Start, ks) == ScanKinds(st, ks[i..])
    {
      assert ks[i..][0] == Classify(lines[i]) && ks[i..][1..] == ks[i + 1..];
      var stop;
      st, stop := ScanLine(st, lines[i]);
      i := i + 1;
      if stop {
        break;
      }
    }
    r := ManifestInfo(StripChar(st.description, '"'), StripChar(st.nextflowVersion, '"'));
  }

  lemma {:induction false} LStripBlanks(blank: string, rest: string)
    requires forall i :: 0 <= i < |blank| ==> IsSpace(blank[i])
    requires |rest| > 0 && !IsSpace(rest[0])
    ensures LStrip(blank + rest) == rest
  {
    if |blank| > 0 {
      assert (blank + rest)[1..] == blank[1..] + rest;
      LStripBlanks(blank[1..], rest);
    }
  }

  /** A string that ends in a non-blank character has nothing to strip on the right. */
  lemma RStripKeeps(s: string)
    requires |s| > 0 && !IsSpace(s[|s| - 1])
    ensures RStrip(s) == s
  {
  }

  /** What follows the name in `NAME = 'value'`: blanks, `=`, blanks, and the quoted value. */
  lemma AfterNameMatches(value: string, q: char)
    requires IsQuote(q)
    ensures AfterEquals(" = " + [q] + value + [q]) == Some([q] + value + [q])
  {
    var quoted := [q] + value + [q];
    var afterEq := " " + quoted;
    assert " = " + [q] + value + [q] == " " + ("=" + afterEq);
    LStripBlanks(" ", "=" + afterEq);
    assert ("=" + afterEq)[1..] == afterEq;
    LStripBlanks(" ", quoted);
    RStripKeeps(quoted);
  }

  /**
   * An assignment written `NAME = 'value'` or `NAME = "value"`, however indented, matches
   * the pattern, and the group is exactly the value between the quotes.
   */
  lemma AssignmentMatches(indent: string, name: string, value: string, q: char)
    requires forall i :: 0 <= i < |indent| ==> IsSpace(indent[i])
    requires |name| > 0 && !IsSpace(name[0])
    requires IsQuote(q)
    ensures MatchAssign(indent + name + " = " + [q] + value + [q], name) == Some(value)
  {
    var afterName := " = " + [q] + value + [q];
    var line := indent + name + " = " + [q] + value + [q];
    assert line == indent + (name + afterName);
    LStripBlanks(indent, name + afterName);
    AfterPrefixOf(name, afterName);
    AfterNameMatches(value, q);
    UnquoteOf(value, q);
    MatchAssignSteps(line, name, afterName, [q] + value + [q]);
  }

  /** `MatchAssign` in its three stages: the name, the `=`, the quotes. */
  lemma MatchAssignSteps(line: string, name: string, t: string, w: string)
    requires AfterPrefix(LStrip(line), name) == Some(t) && AfterEquals(t) == Some(w)
    ensures MatchAssign(line, name) == Unquote(w)
  {
  }

  /** The text between two quotes is read back by `Unquote`. */
  lemma UnquoteOf(value: string, q: char)
    requires IsQuote(q)
    ensures Unquote([q] + value + [q]) == Some(value)
  {
    var w := [q] + value + [q];
    assert w[1..|w| - 1] == value;
  }

  /** The line assigns the description, in either form. */
  predicate AssignsDescription(k: LineKind)
  {
    k.TopDescription? || (k.Body? && k.description.Some?)
  }

  /** The line assigns the Nextflow version, in either form. */
  predicate AssignsVersion(k: LineKind)
  {
    k.TopVersion? || (k.Body? && k.nextflowVersion.Some?)
  }

  /** Lines that assign no description leave it as it was, whatever else they do. */
  lemma {:induction false} DescriptionKept(st: Scan, ks: seq<LineKind>)
    requires forall i :: 0 <= i < |ks| ==> !AssignsDescription(ks[i])
    ensures ScanKinds(st, ks).description == st.description
    decreases |ks|
  {
    if |ks| > 0 {
      var r := Step(st, ks[0]);
      if !r.1 {
        DescriptionKept(r.0, ks[1..]);
      }
    }
  }

  /** Lines that assign no version leave it as it was, whatever else they do. */
  lemma {:induction false} VersionKept(st: Scan, ks: seq<LineKind>)
    requires forall i :: 0 <= i < |ks| ==> !AssignsVersion(ks[i])
    ensures ScanKinds(st, ks).nextflowVersion == st.nextflowVersion
    decreases |ks|
  {
    if |ks| > 0 {
      var r := Step(st, ks[0]);
      if !r.1 {
        VersionKept(r.0, ks[1..]);
      }
    }
  }

  /** A field that no line of the text assigns comes back as the empty string. */
  lemma AbsentFieldsAreEmpty(content: string)
    ensures (forall line :: line in Split(content, '\n') ==> !AssignsDescription(Classify(line)))
            ==> ParseManifest(content).description == ""
    ensures (forall line :: line in Split(content, '\n') ==> !AssignsVersion(Classify(line)))
            ==> ParseManifest(content).nextflowVersion == ""
  {
    var lines := Split(content, '\n');
    var ks := Kinds(lines);
    if forall line :: line in lines ==> !AssignsDescription(Classify(line)) {
      assert forall i :: 0 <= i < |ks| ==> !AssignsDescription(ks[i]) by {
        forall i | 0 <= i < |ks| ensures !AssignsDescription(ks[i]) {
          assert lines[i] in lines;
        }
      }
      DescriptionKept(Start, ks);
    }
    if forall line :: line in lines ==> !AssignsVersion(Classify(line)) {
      assert forall i :: 0 <= i < |ks| ==> !AssignsVersion(ks[i]) by {
        forall i | 0 <= i < |ks| ensures !AssignsVersion(ks[i]) {
          assert lines[i] in lines;
        }
      }
      VersionKept(Start, ks);
    }
  }

  /** The line `NAME = qVALUEq`, with `q` a quote. */
  function Assignment(name: string, q: char, value: string): string
  {
    name + " = " + [q] + value + [q]
  }

  /**
   * A first line `manifest.description = "x"` (either quote) gives the description `x` with
   * its surrounding double quotes stripped, when no later line assigns a description.
   */
  lemma FirstLineDescription(x: string, q: char, rest: string)
    requires IsQuote(q) && '\n' !in x
    requires forall line :: line in Split(rest, '\n') ==> !AssignsDescription(Classify(line))
    ensures ParseManifest(Assignment("manifest.description", q, x) + "\n" + rest).description == StripChar(x, '"')
  {
    var line := Assignment("manifest.description", q, x);
    QualifiedMatch("manifest.description", x, q);
    ClassifyQualified(line);
    FirstLineRest(line, rest, Start.(description := x));
    var ks := Kinds(Split(rest, '\n'));
    forall i | 0 <= i < |ks| ensures !AssignsDescription(ks[i]) {
      assert Split(rest, '\n')[i] in Split(rest, '\n');
    }
    DescriptionKept(Start.(description := x), ks);
  }

  /**
   * A first line `manifest.nextflowVersion = "x"` (either quote) gives the version `x` with
   * its surrounding double quotes stripped, when no later line assigns a version.
   */
  lemma FirstLineVersion(x: string, q: char, rest: string)
    requires IsQuote(q) && '\n' !in x
    requires forall line :: line in Split(rest, '\n') ==> !AssignsVersion(Classify(line))
    ensures ParseManifest(Assignment("manifest.nextflowVersion", q, x) + "\n" + rest).nextflowVersion == StripChar(x, '"')
  {
    var line := Assignment("manifest.nextflowVersion", q, x);
    QualifiedMatch("manifest.nextflowVersion", x, q);
    NotDescriptionLine(line);
    ClassifyQualified(line);
    FirstLineRest(line, rest, Start.(nextflowVersion := x));
    var ks := Kinds(Split(rest, '\n'));
    forall i | 0 <= i < |ks| ensures !AssignsVersion(ks[i]) {
      assert Split(rest, '\n')[i] in Split(rest, '\n');
    }
    VersionKept(Start.(nextflowVersion := x), ks);
  }

  /** `NAME = "x"` written from the start of the line matches NAME's pattern with group `x`. */
  lemma QualifiedMatch(name: string, x: string, q: char)
    requires |name| > 0 && !IsSpace(name[0]) && '\n' !in name
    requires IsQuote(q) && '\n' !in x
    ensures MatchAssign(Assignment(name, q, x), name) == Some(x)
    ensures '\n' !in Assignment(name, q, x)
  {
    assert Assignment(name, q, x) == "" + name + " = " + [q] + x + [q];
    AssignmentMatches("", name, x, q);
    AssignmentOneLine(name, x, q);
  }

  /** An assignment of a one-line value to a one-line name is one line. */
  lemma AssignmentOneLine(name: string, x: string, q: char)
    requires '\n' !in name && IsQuote(q) && '\n' !in x
    ensures '\n' !in Assignment(name, q, x)
  {
    var line := Assignment(name, q, x);
    forall i | 0 <= i < |line| ensures line[i] != '\n' {
      if i < |name| {
        assert line[i] == name[i];
      } else if |name| + 4 <= i < |line| - 1 {
        assert line[i] == x[i - |name| - 4];
      }
    }
  }

  /** A line that starts with `manifest.n` is no qualified description assignment. */
  lemma NotDescriptionLine(line: string)
    requires StartsWith(line, "manifest.n")
    ensures MatchAssign(line, "manifest.description").None?
  {
    LStripBlanks("", line);
    assert line[9] != "manifest.description"[9];
  }

  /** How `Classify` treats the two qualified assignments. */
  lemma ClassifyQualified(line: string)
    ensures MatchAssign(line, "manifest.description").Some? ==>
      Classify(line) == TopDescription(MatchAssign(line, "manifest.description").value)
    ensures MatchAssign(line, "manifest.description").None? && MatchAssign(line, "manifest.nextflowVersion").Some? ==>
      Classify(line) == TopVersion(MatchAssign(line, "manifest.nextflowVersion").value)
  {
  }

  /** A first line that moves the scan to `st` without stopping leaves the rest to scan from `st`. */
  lemma FirstLineRest(line: string, rest: string, st: Scan)
    requires '\n' !in line
    requires Step(Start, Classify(line)) == (st, false)
    ensures ParseManifest(line + "\n" + rest)
         == ManifestInfo(StripChar(ScanKinds(st, Kinds(Split(rest, '\n'))).description, '"'),
                         StripChar(ScanKinds(st, Kinds(Split(rest, '\n'))).nextflowVersion, '"'))
  {
    SplitCons(line, '\n', rest);
    var lines := Split(rest, '\n');
    KindsCons(line, lines);
    var ks := [Classify(line)] + Kinds(lines);
    assert ks[0] == Classify(line) && ks[1..] == Kinds(lines);
    assert ScanKinds(Start, ks) == ScanKinds(st, Kinds(lines));
  }

  /** The kinds of a line followed by more lines. */
  lemma KindsCons(line: string, lines: seq<string>)
    ensures Kinds([line] + lines) == [Classify(line)] + Kinds(lines)
  {
    assert ([line] + lines)[1..] == lines;
  }

  /**
   * Outside a depth-one manifest block (not in the block, or inside a nested block of
   * it), only the `manifest.`-qualified assignments and a new `manifest {` line have any
   * effect: ordinary lines, bare `description = …` ones included, change nothing.
   */
  lemma {:induction false} OutsideBlockIgnored(st: Scan, ks: seq<LineKind>)
    requires !st.inScope || st.open > 1 || st.open < 0
    requires forall i :: 0 <= i < |ks| ==> ks[i].Body?
    ensures ScanKinds(st, ks) == st
    decreases |ks|
  {
    if |ks| > 0 {
      var r := Step(st, ks[0]);
      if !r.1 {
        OutsideBlockIgnored(r.0, ks[1..]);
      }
    }
  }

  /**
   * Directly inside the block, a bare `description = …` line sets the description, moves
   * the depth by the line's brackets, and does not stop the scan.
   */
  lemma ScopedAssignmentCaptured(st: Scan, line: string)
    requires st.inScope && st.open == 1
    requires Classify(line).Body? && MatchAssign(line, "description").Some?
    ensures Step(st, Classify(line)).0.description == MatchAssign(line, "description").value
    ensures Step(st, Classify(line)).0.open == 1 + Count(line, '{') - Count(line, '}')
    ensures !Step(st, Classify(line)).1
  {
  }

  /** A `manifest {` line enters the block at depth one, whatever came before. */
  lemma OpeningResetsDepth(st: Scan, line: string)
    requires OpensManifest(line)
    requires MatchAssign(line, "manifest.description").None? && MatchAssign(line, "manifest.nextflowVersion").None?
    ensures Step(st, Classify(line)) == (st.(inScope := true, open := 1), false)
  {
  }

  /**
   * Once both fields are non-empty, the first line that assigns nothing ends the scan: no
   * later line is read.
   */
  lemma StopsOnceBothFound(st: Scan, k: LineKind, rest: seq<LineKind>)
    requires st.description != "" && st.nextflowVersion != ""
    requires k.Body? && !AssignsDescription(k) && !AssignsVersion(k)
    ensures ScanKinds(st, [k] + rest) == Step(st, k).0
  {
    assert ([k] + rest)[0] == k;
  }

  /**
   * The stop is only tested on lines that assign nothing: an assignment read right after
   * both fields were found still replaces the value, and the scan goes on.
   */
  lemma AssignmentAfterBothFound(st: Scan, v: string, rest: seq<LineKind>)
    requires st.description != "" && st.nextflowVersion != ""
    ensures ScanKinds(st, [TopDescription(v)] + rest) == ScanKinds(st.(description := v), rest)
  {
    assert ([TopDescription(v)] + rest)[0] == TopDescription(v);
    assert ([TopDescription(v)] + rest)[1..] == rest;
  }
}
