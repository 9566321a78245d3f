/**
 * The dokku client: the command lines it sends to the host and the parsers
 * for the reports the host prints back. The SSH transport is not modelled:
 * each report enters as the text the command printed.
 */
module Client {
  import opened Wrappers
  import opened PyStr
  import opened Shell
  import opened Models

  /** The output `run` hands back: stdout when there is any, else stderr. */
  function CommandOutput(stdout: string, stderr: string): (r: string)
    ensures stdout != [] ==> r == stdout
    ensures stdout == [] ==> r == stderr
    ensures r == [] <==> stdout == [] && stderr == []
  {
    if stdout != [] then stdout else stderr
  }

  /** The lines of a report, as `output.split("\n")`. */
  function Lines(output: string): seq<string> {
    Split(output, '\n')
  }

  // ---------------------------------------------------------------- apps:list

  /** `[x.strip() for x in xs if x.strip()]` */
  function StrippedNonBlank(xs: seq<string>): (r: seq<string>)
    ensures |r| <= |xs|
    ensures forall k :: 0 <= k < |r| ==> r[k] != [] && IsStripped(r[k])
  {
    if xs == [] then []
    else
      var t := Strip(xs[|xs| - 1]);
      StrippedNonBlank(xs[..|xs| - 1]) + (if t != [] then [t] else [])
  }

  lemma {:induction false} StrippedNonBlankKeeps(xs: seq<string>)
    requires forall k :: 0 <= k < |xs| ==> xs[k] != [] && IsStripped(xs[k])
    ensures StrippedNonBlank(xs) == xs
  {
    if xs != [] {
      StrippedNonBlankKeeps(xs[..|xs| - 1]);
      StripStripped(xs[|xs| - 1]);
      SeqSnoc(xs);
    }
  }

  /** A single line is kept, stripped, exactly when it is not blank. */
  lemma StrippedNonBlankOne(x: string)
    ensures StrippedNonBlank([x]) == if Strip(x) != [] then [Strip(x)] else []
  {
    assert [x][..0] == [];
  }

  /** Filtering the lines of a report block by block keeps the blocks' order. */
  lemma {:induction false} StrippedNonBlankConcat(a: seq<string>, b: seq<string>)
    ensures StrippedNonBlank(a + b) == StrippedNonBlank(a) + StrippedNonBlank(b)
    decreases |b|
  {
    if b == [] {
      assert a + b == a;
    } else {
      var c := b[..|b| - 1];
      var t := Strip(b[|b| - 1]);
      var last := if t != [] then [t] else [];
      assert (a + b)[..|a + b| - 1] == a + c && (a + b)[|a + b| - 1] == b[|b| - 1];
      StrippedNonBlankConcat(a, c);
      AppendAssoc(StrippedNonBlank(a), StrippedNonBlank(c), last);
    }
  }

  lemma {:induction false} StrippedNonBlankTokens(ts: seq<string>)
    requires forall k :: 0 <= k < |ts| ==> IsToken(ts[k])
    ensures StrippedNonBlank(ts) == ts
  {
    forall k | 0 <= k < |ts| ensures ts[k] != [] && IsStripped(ts[k]) {
      assert IsToken(ts[k]);
    }
    StrippedNonBlankKeeps(ts);
  }

  /** The application names of an `apps:list` report: every line after the header, stripped, blanks dropped. */
  function AppsList(output: string): seq<string> {
    var lines := Lines(Strip(output));
    StrippedNonBlank(lines[1..])
  }

  /** Names listed under a header come back exactly, in report order. */
  lemma AppsListRoundTrip(header: string, names: seq<string>)
    requires header != [] && IsStripped(header) && '\n' !in header
    requires forall k :: 0 <= k < |names| ==> names[k] != [] && IsStripped(names[k]) && '\n' !in names[k]
    ensures AppsList(Join("\n", [header] + names)) == names
  {
    var xs := [header] + names;
    var out := Join("\n", xs);
    assert forall k :: 0 <= k < |xs| ==> xs[k] != [] && '\n' !in xs[k] && IsStripped(xs[k]) by {
      forall k | 0 <= k < |xs| ensures xs[k] != [] && '\n' !in xs[k] && IsStripped(xs[k]) {
        if k > 0 { assert xs[k] == names[k - 1]; }
      }
    }
    assert Lines(Strip(out)) == xs by {
      JoinStripped("\n", xs);
      StripStripped(out);
      SplitJoin(xs, '\n');
    }
    assert xs[1..] == names;
    StrippedNonBlankKeeps(names);
  }

  // ---------------------------------------------------------------- ps:report status

  /** `app_status`: the status words, tested on the lower-cased report in priority order. */
  function StatusOf(output: string): AppStatus {
    var o := Lower(output);
    if Contains(o, "running") then Running
    else if Contains(o, "stopped") then Stopped
    else if Contains(o, "crashed") || Contains(o, "exited") then Crashed
    else Unknown
  }

  lemma StatusPriority(output: string)
    ensures StatusOf(output) == Running <==> Contains(Lower(output), "running")
    ensures StatusOf(output) == Stopped <==> !Contains(Lower(output), "running") && Contains(Lower(output), "stopped")
    ensures StatusOf(output) == Crashed <==>
      !Contains(Lower(output), "running") && !Contains(Lower(output), "stopped")
      && (Contains(Lower(output), "crashed") || Contains(Lower(output), "exited"))
    ensures StatusOf(output) == Unknown <==>
      !Contains(Lower(output), "running") && !Contains(Lower(output), "stopped")
      && !Contains(Lower(output), "crashed") && !Contains(Lower(output), "exited")
    ensures StatusOf(output) !in {Restarting, Starting, Stopping}
  {
  }

  lemma LowerConcat(a: string, b: string)
    ensures Lower(a + b) == Lower(a) + Lower(b)
  {
  }

  lemma LowerIdempotent(s: string)
    ensures Lower(Lower(s)) == Lower(s)
  {
  }

  /** Case does not matter: a report and its lower-cased form have the same status. */
  lemma StatusCaseInsensitive(output: string)
    ensures StatusOf(Lower(output)) == StatusOf(output)
  {
    LowerIdempotent(output);
  }

  /**
   * One container reported running makes the whole application running,
   * whatever the rest of the report says.
   */
  lemma StatusRunningDominates(a: string, b: string)
    requires Contains(Lower(a), "running") || Contains(Lower(b), "running")
    ensures StatusOf(a + b) == Running
  {
    LowerConcat(a, b);
    ContainsConcat(Lower(a), Lower(b), "running");
  }

  /** The status test of the batched listing: no crashed/exited case. */
  function QuickStatus(output: string): AppStatus {
    var o := Lower(output);
    if Contains(o, "running") then Running
    else if Contains(o, "stopped") then Stopped
    else Unknown
  }

  /** The listing and the detail view agree except that the listing shows a crashed application as unknown. */
  lemma QuickStatusAgrees(output: string)
    ensures QuickStatus(output) == (if StatusOf(output) == Crashed then Unknown else StatusOf(output))
    ensures QuickStatus(output) in {Running, Stopped, Unknown}
  {
  }

  // ---------------------------------------------------------------- domains:report

  const DomainsMarker := "Domains app vhosts:"

  /** The domains a `Domains app vhosts:` line lists: the tokens after its first colon. */
  function DomainsOfLine(line: string): seq<string>
    requires ':' in line
  {
    var rest := SplitOnce(line, ':').value.1;
    StrippedNonBlank(SplitWs(Strip(rest)))
  }

  /** `_parse_domains` over a report's lines: the last marker line decides. */
  function DomainsOf(lines: seq<string>): seq<string> {
    if lines == [] then []
    else
      var line := lines[|lines| - 1];
      if Contains(line, DomainsMarker) && ':' in line then DomainsOfLine(line)
      else DomainsOf(lines[..|lines| - 1])
  }

  method ParseDomains(output: string) returns (domains: seq<string>)
    ensures domains == DomainsOf(Lines(output))
  {
    var lines := Lines(output);
    domains := [];
    var i := 0;
    while i < |lines|
      invariant 0 <= i <= |lines|
      invariant domains == DomainsOf(lines[..i])
    {
      var line := lines[i];
      assert lines[..i + 1][..i] == lines[..i];
      if Contains(line, DomainsMarker) {
        var parts := SplitOnce(line, ':');
        if parts.Some? {
          var domainStr := Strip(parts.value.1);
          domains := StrippedNonBlank(SplitWs(domainStr));
        }
      }
      i := i + 1;
    }
    assert lines[..|lines|] == lines;
  }

  /** Line `k` is the last line of the report that carries `marker`. */
  predicate IsLastWith(lines: seq<string>, k: int, marker: string) {
    0 <= k < |lines| && Contains(lines[k], marker)
    && forall j :: k < j < |lines| ==> !Contains(lines[j], marker)
  }

  /**
   * The domains are the whitespace-separated tokens after the first colon of
   * the last line carrying the marker, and none is empty; with no such line
   * there are none.
   */
  lemma {:induction false} DomainsLastMarkerLine(lines: seq<string>)
    ensures (forall k :: 0 <= k < |lines| ==> !Contains(lines[k], DomainsMarker)) ==> DomainsOf(lines) == []
    ensures forall k :: IsLastWith(lines, k, DomainsMarker) ==>
      ':' in lines[k] && DomainsOf(lines) == SplitWs(SplitOnce(lines[k], ':').value.1)
    ensures forall d :: d in DomainsOf(lines) ==> IsToken(d)
  {
    if forall k :: 0 <= k < |lines| ==> !Contains(lines[k], DomainsMarker) {
      DomainsNoMarker(lines);
    }
    forall k | IsLastWith(lines, k, DomainsMarker)
      ensures ':' in lines[k] && DomainsOf(lines) == SplitWs(SplitOnce(lines[k], ':').value.1)
    {
      DomainsAtLast(lines, k);
    }
    DomainsAreTokens(lines);
  }

  lemma {:induction false} DomainsNoMarker(lines: seq<string>)
    requires forall k :: 0 <= k < |lines| ==> !Contains(lines[k], DomainsMarker)
    ensures DomainsOf(lines) == []
  {
    if lines != [] {
      var init := lines[..|lines| - 1];
      assert forall k :: 0 <= k < |init| ==> init[k] == lines[k];
      DomainsNoMarker(init);
    }
  }

  /** The domains of one marker line are the tokens after its first colon. */
  lemma DomainsOfMarkerLine(line: string)
    requires Contains(line, DomainsMarker)
    ensures ':' in line && DomainsOfLine(line) == SplitWs(SplitOnce(line, ':').value.1)
  {
    ContainsChar(line, DomainsMarker, ':');
    var rest := SplitOnce(line, ':').value.1;
    SplitWsStrip(rest);
    StrippedNonBlankTokens(SplitWs(Strip(rest)));
  }

  lemma {:induction false} DomainsAtLast(lines: seq<string>, k: int)
    requires IsLastWith(lines, k, DomainsMarker)
    ensures ':' in lines[k] && DomainsOf(lines) == SplitWs(SplitOnce(lines[k], ':').value.1)
    decreases |lines|
  {
    DomainsOfMarkerLine(lines[k]);
    var init := lines[..|lines| - 1];
    if k < |lines| - 1 {
      assert forall j :: 0 <= j < |init| ==> init[j] == lines[j];
      assert IsLastWith(init, k, DomainsMarker);
      DomainsAtLast(init, k);
    }
  }

  lemma {:induction false} DomainsAreTokens(lines: seq<string>)
    ensures forall d :: d in DomainsOf(lines) ==> IsToken(d)
  {
    if lines != [] {
      var last := lines[|lines| - 1];
      if Contains(last, DomainsMarker) && ':' in last {
        DomainsOfMarkerLine(last);
        assert DomainsOf(lines) == SplitWs(SplitOnce(last, ':').value.1);
      } else {
        DomainsAreTokens(lines[..|lines| - 1]);
      }
    }
  }

  // ---------------------------------------------------------------- ps:report container count

  /** The count a `Processes:`/`Running:` line reports: its first run of digits. */
  function CountOfLine(line: string): (r: Option<nat>)
    ensures r.Some? ==> Contains(line, "Processes:") || Contains(line, "Running:")
  {
    if Contains(line, "Processes:") || Contains(line, "Running:") then FirstDigitRun(line) else None
  }

  /** `_parse_container_count` over a report's lines: the first line with a count decides, else 0. */
  function ContainerCountOf(lines: seq<string>): nat {
    if lines == [] then 0
    else
      match CountOfLine(lines[0])
      case Some(n) => n
      case None => ContainerCountOf(lines[1..])
  }

  method ParseContainerCount(output: string) returns (count: nat)
    ensures count == ContainerCountOf(Lines(output))
  {
    var lines := Lines(output);
    var i := 0;
    while i < |lines|
      invariant 0 <= i <= |lines|
      invariant ContainerCountOf(lines[i..]) == ContainerCountOf(lines)
    {
      var line := lines[i];
      assert lines[i..][1..] == lines[i + 1..];
      if Contains(line, "Processes:") || Contains(line, "Running:") {
        var m := FirstDigitRun(line);
        if m.Some? {
          return m.value;
        }
      }
      i := i + 1;
    }
    return 0;
  }

  /** Line `k` is the first line of the report on which a count is found. */
  predicate IsFirstCount(lines: seq<string>, k: int) {
    0 <= k < |lines| && CountOfLine(lines[k]).Some?
    && forall j :: 0 <= j < k ==> CountOfLine(lines[j]).None?
  }

  /**
   * The container count is the first digit run of the first line that both
   * carries `Processes:` or `Running:` and has a digit; it is 0 when there is
   * no such line.
   */
  lemma {:induction false} ContainerCountFirstMatch(lines: seq<string>)
    ensures (forall k :: 0 <= k < |lines| ==> CountOfLine(lines[k]).None?) ==> ContainerCountOf(lines) == 0
    ensures forall k :: IsFirstCount(lines, k) ==> ContainerCountOf(lines) == CountOfLine(lines[k]).value
  {
    if lines != [] {
      var tail := lines[1..];
      ContainerCountFirstMatch(tail);
      assert forall k :: 1 <= k < |lines| ==> lines[k] == tail[k - 1];
      forall k | IsFirstCount(lines, k) && k > 0
        ensures IsFirstCount(tail, k - 1)
      {
        forall j | 0 <= j < k - 1 ensures CountOfLine(tail[j]).None? {
          assert tail[j] == lines[j + 1];
        }
      }
    }
  }

  lemma NoDigitsConcat(a: string, b: string)
    requires forall i :: 0 <= i < |a| ==> !IsDigit(a[i])
    requires forall i :: 0 <= i < |b| ==> !IsDigit(b[i])
    ensures forall i :: 0 <= i < |a + b| ==> !IsDigit((a + b)[i])
  {
  }

  /** A `Processes:` line followed by a number reports exactly that number. */
  lemma ProcessesLineCount(pad: string, gap: string, n: nat)
    requires forall i :: 0 <= i < |pad| ==> !IsDigit(pad[i])
    requires forall i :: 0 <= i < |gap| ==> !IsDigit(gap[i])
    ensures CountOfLine(pad + "Processes:" + gap + NatToString(n)) == Some(n)
  {
    var m := "Processes:";
    assert forall i :: 0 <= i < |m| ==> !IsDigit(m[i]);
    DigitsAfterMarker(pad, m, gap, n);
  }

  /** A line holding `marker` and then a number, with no digit before the number, reports that number first. */
  lemma DigitsAfterMarker(pad: string, marker: string, gap: string, n: nat)
    requires forall i :: 0 <= i < |pad| ==> !IsDigit(pad[i])
    requires forall i :: 0 <= i < |marker| ==> !IsDigit(marker[i])
    requires forall i :: 0 <= i < |gap| ==> !IsDigit(gap[i])
    ensures Contains(pad + marker + gap + NatToString(n), marker)
    ensures FirstDigitRun(pad + marker + gap + NatToString(n)) == Some(n)
  {
    var d := NatToString(n);
    var head := pad + marker;
    assert forall i :: 0 <= i < |head + gap| ==> !IsDigit((head + gap)[i]) by {
      NoDigitsConcat(pad, marker);
      NoDigitsConcat(head, gap);
    }
    FirstDigitRunAtEnd(head + gap, n);
    MarkerInLine(pad, marker, gap, d);
  }

  lemma MarkerInLine(pad: string, marker: string, gap: string, tail: string)
    ensures Contains(pad + marker + gap + tail, marker)
  {
    var line := pad + marker + gap + tail;
    assert line[|pad|..|pad| + |marker|] == marker;
    ContainsAt(line, marker, |pad|);
  }

  // ---------------------------------------------------------------- git:report

  const DeployMarker := "Git deploy branch:"

  /** `_parse_deploy_source` over a report's lines: the first marker line decides, else "unknown". */
  function DeploySourceOf(lines: seq<string>): (r: string)
    ensures r == "unknown" || IsStripped(r)
  {
    if lines == [] then "unknown"
    else if Contains(lines[0], DeployMarker) && ':' in lines[0] then Strip(SplitOnce(lines[0], ':').value.1)
    else DeploySourceOf(lines[1..])
  }

  method ParseDeploySource(output: string) returns (source: string)
    ensures source == DeploySourceOf(Lines(output))
  {
    var lines := Lines(output);
    var i := 0;
    while i < |lines|
      invariant 0 <= i <= |lines|
      invariant DeploySourceOf(lines[i..]) == DeploySourceOf(lines)
    {
      var line := lines[i];
      assert lines[i..][1..] == lines[i + 1..];
      if Contains(line, DeployMarker) {
        var parts := SplitOnce(line, ':');
        if parts.Some? {
          return Strip(parts.value.1);
        }
      }
      i := i + 1;
    }
    return "unknown";
  }

  /** Line `k` is the first line of the report that carries `marker`. */
  predicate IsFirstWith(lines: seq<string>, k: int, marker: string) {
    0 <= k < |lines| && Contains(lines[k], marker)
    && forall j :: 0 <= j < k ==> !Contains(lines[j], marker)
  }

  /**
   * The deploy source is the trimmed text after the first colon of the first
   * `Git deploy branch:` line, or "unknown" when there is none.
   */
  lemma {:induction false} DeploySourceFirstLine(lines: seq<string>)
    ensures (forall k :: 0 <= k < |lines| ==> !Contains(lines[k], DeployMarker)) ==> DeploySourceOf(lines) == "unknown"
    ensures forall k :: IsFirstWith(lines, k, DeployMarker) ==>
      ':' in lines[k] && DeploySourceOf(lines) == Strip(SplitOnce(lines[k], ':').value.1)
  {
    if lines != [] {
      var tail := lines[1..];
      DeploySourceFirstLine(tail);
      assert forall k :: 1 <= k < |lines| ==> lines[k] == tail[k - 1];
      if Contains(lines[0], DeployMarker) {
        ContainsChar(lines[0], DeployMarker, ':');
      }
      forall k | IsFirstWith(lines, k, DeployMarker) && k > 0
        ensures IsFirstWith(tail, k - 1, DeployMarker)
      {
        forall j | 0 <= j < k - 1 ensures !Contains(tail[j], DeployMarker) {
          assert tail[j] == lines[j + 1];
        }
      }
      forall k | IsFirstWith(lines, k, DeployMarker)
        ensures ':' in lines[k]
      {
        ContainsChar(lines[k], DeployMarker, ':');
      }
    }
  }

  /** A branch printed after the marker is read back exactly. */
  lemma DeployBranchRoundTrip(pad: string, gap: string, branch: string)
    requires ':' !in pad && AllSpace(gap) && branch != [] && IsStripped(branch)
    ensures DeploySourceOf([pad + DeployMarker + gap + branch]) == branch
  {
    var line := pad + DeployMarker + gap + branch;
    assert line == pad + DeployMarker + (gap + branch);
    ContainsInfix(pad, DeployMarker, gap + branch);
    assert line == (pad + "Git deploy branch") + [':'] + (gap + branch);
    assert ':' !in pad + "Git deploy branch";
    SplitOnceConcat(pad + "Git deploy branch", ':', gap + branch);
    StripAfterSpaces(gap, branch);
  }

  // ---------------------------------------------------------------- config:show

  /** The words whose presence in a lower-cased key marks the variable sensitive. */
  const SensitiveWords: seq<string> := ["password", "secret", "key", "token", "api", "private"]

  predicate IsSensitiveKey(key: string) {
    exists i :: 0 <= i < |SensitiveWords| && Contains(Lower(key), SensitiveWords[i])
  }

  /** The variable one `config:show` line declares, if any. */
  function ConfigEntry(line: string): (r: Option<EnvVar>)
    ensures r.Some? <==>
      (':' in line && !StartsWith(line, "=") && !StartsWith(Strip(SplitOnce(line, ':').value.0), "===="))
    ensures r.Some? ==>
      var (k, v) := SplitOnce(line, ':').value;
      r.value == EnvVar(Strip(k), Strip(v), IsSensitiveKey(Strip(k)))
  {
    if ':' in line && !StartsWith(line, "=") then
      var (k, v) := SplitOnce(line, ':').value;
      var key := Strip(k);
      if StartsWith(key, "====") then None
      else Some(EnvVar(key, Strip(v), IsSensitiveKey(key)))
    else None
  }

  function OptionToSeq<T>(o: Option<T>): seq<T> {
    match o
    case Some(x) => [x]
    case None => []
  }

  /** `_parse_config` over a report's lines: one variable per declaring line, in report order. */
  function ConfigOf(lines: seq<string>): seq<EnvVar> {
    if lines == [] then []
    else ConfigOf(lines[..|lines| - 1]) + OptionToSeq(ConfigEntry(lines[|lines| - 1]))
  }

  method ParseConfig(output: string) returns (vars: seq<EnvVar>)
    ensures vars == ConfigOf(Lines(output))
  {
    var lines := Lines(output);
    vars := [];
    var i := 0;
    while i < |lines|
      invariant 0 <= i <= |lines|
      invariant vars == ConfigOf(lines[..i])
    {
      var line := lines[i];
      assert lines[..i + 1][..i] == lines[..i];
      if ':' in line && !StartsWith(line, "=") {
        var parts := SplitOnce(line, ':');
        if parts.Some? {
          var key := Strip(parts.value.0);
          var value := Strip(parts.value.1);
          if !StartsWith(key, "====") {
            vars := vars + [EnvVar(key, value, IsSensitiveKey(key))];
          }
        }
      }
      i := i + 1;
    }
    assert lines[..|lines|] == lines;
  }

  /** Lines are read independently: the variables of a report are those of its parts, in order. */
  lemma {:induction false} ConfigOfConcat(a: seq<string>, b: seq<string>)
    ensures ConfigOf(a + b) == ConfigOf(a) + ConfigOf(b)
    decreases |b|
  {
    if b == [] {
      assert a + b == a;
    } else {
      var b0 := b[..|b| - 1];
      assert (a + b)[..|a + b| - 1] == a + b0;
      ConfigOfConcat(a, b0);
    }
  }

  /** Every variable read has a trimmed key free of colons and its sensitivity flag set by the key. */
  lemma {:induction false} ConfigEntriesShape(lines: seq<string>)
    ensures |ConfigOf(lines)| <= |lines|
    ensures forall k :: 0 <= k < |ConfigOf(lines)| ==>
      var e := ConfigOf(lines)[k];
      IsStripped(e.key) && ':' !in e.key && IsStripped(e.value) && !StartsWith(e.key, "====")
      && e.is_sensitive == IsSensitiveKey(e.key)
  {
    if lines != [] {
      ConfigEntriesShape(lines[..|lines| - 1]);
      var line := lines[|lines| - 1];
      if ConfigEntry(line).Some? {
        var k := SplitOnce(line, ':').value.0;
        StripNoChar(k, ':');
      }
    }
  }

  /** The line `config:show` prints for a variable. */
  function ShowLine(key: string, gap: string, value: string): string {
    key + ":" + gap + value
  }

  /**
   * A declaring line is read back exactly: the key is the text before the
   * first colon and the value keeps any colons of its own.
   */
  lemma ConfigEntryRoundTrip(key: string, gap: string, value: string)
    requires IsStripped(key) && ':' !in key && (key == [] || key[0] != '=') && !StartsWith(key, "====")
    requires AllSpace(gap) && IsStripped(value)
    ensures ConfigEntry(ShowLine(key, gap, value)) == Some(EnvVar(key, value, IsSensitiveKey(key)))
  {
    var line := ShowLine(key, gap, value);
    assert line == key + [':'] + (gap + value);
    SplitOnceConcat(key, ':', gap + value);
    StripStripped(key);
    StripAfterSpaces(gap, value);
    assert line[|key|] == ':';
    if key == [] {
      assert line[0] == ':';
    } else {
      assert line[0] == key[0];
    }
  }

  /** A header line starting with `=` declares nothing. */
  lemma ConfigHeaderSkipped(header: string)
    requires header != [] && header[0] == '='
    ensures ConfigEntry(header) == None
  {
    assert header[..1] == "=";
  }

  /** Sensitivity ignores case. */
  lemma SensitiveIgnoresCase(key: string)
    ensures IsSensitiveKey(Lower(key)) == IsSensitiveKey(key)
  {
    LowerIdempotent(key);
  }

  lemma SeqSnoc<T>(s: seq<T>)
    requires s != []
    ensures s == s[..|s| - 1] + [s[|s| - 1]]
  {
  }

  /** A variable `config:show` can print so that it is read back as itself. */
  predicate Showable(e: EnvVar) {
    IsStripped(e.key) && ':' !in e.key && (e.key == [] || e.key[0] != '=') && !StartsWith(e.key, "====")
    && IsStripped(e.value) && e.is_sensitive == IsSensitiveKey(e.key)
  }

  /** A `config:show` report: a header line, then one `KEY: value` line per variable. */
  function ShowReport(header: string, vars: seq<EnvVar>): (r: seq<string>)
    ensures |r| == |vars| + 1
  {
    if vars == [] then [header]
    else ShowReport(header, vars[..|vars| - 1]) + [ShowLine(vars[|vars| - 1].key, " ", vars[|vars| - 1].value)]
  }

  lemma ShowableEntry(e: EnvVar)
    requires Showable(e)
    ensures ConfigEntry(ShowLine(e.key, " ", e.value)) == Some(e)
  {
    assert AllSpace(" ");
    ConfigEntryRoundTrip(e.key, " ", e.value);
  }

  lemma ConfigOfSnoc(xs: seq<string>, line: string)
    ensures ConfigOf(xs + [line]) == ConfigOf(xs) + OptionToSeq(ConfigEntry(line))
  {
    assert (xs + [line])[..|xs|] == xs;
  }

  /** Parsing a whole report gives back its variables, in order. */
  lemma {:induction false} ConfigShowRoundTrip(header: string, vars: seq<EnvVar>)
    requires header != [] && header[0] == '='
    requires forall k :: 0 <= k < |vars| ==> Showable(vars[k])
    ensures ConfigOf(ShowReport(header, vars)) == vars
  {
    if vars == [] {
      ConfigHeaderSkipped(header);
      assert ConfigOf([header]) == ConfigOf([]) + OptionToSeq(ConfigEntry(header));
    } else {
      var init := vars[..|vars| - 1];
      var e := vars[|vars| - 1];
      var r := ShowReport(header, vars);
      assert forall k :: 0 <= k < |init| ==> init[k] == vars[k];
      ConfigShowRoundTrip(header, init);
      var line := ShowLine(e.key, " ", e.value);
      assert r == ShowReport(header, init) + [line];
      assert r[..|r| - 1] == ShowReport(header, init);
      assert r[|r| - 1] == line;
      ShowableEntry(e);
      ConfigOfSnoc(ShowReport(header, init), line);
      SeqSnoc(vars);
    }
  }

  // ---------------------------------------------------------------- web URL

  /** The address an application is reached at: https on its first domain, or "" without domains. */
  function WebUrl(domains: seq<string>): (r: string)
    ensures domains == [] <==> r == []
  {
    if domains != [] then "https://" + domains[0] else ""
  }

  /** The web URL is the primary domain behind `https://`. */
  lemma WebUrlPrimaryDomain(a: App)
    ensures PrimaryDomain(a).Some? ==> WebUrl(a.domains) == "https://" + PrimaryDomain(a).value
    ensures PrimaryDomain(a).None? ==> WebUrl(a.domains) == ""
  {
  }

  // ---------------------------------------------------------------- get_all_apps

  const WebAddressMarker := "Ps web address:"

  /** The address a `Ps web address:` line carries: the trimmed text after its first colon, when non-empty. */
  function WebAddressOfLine(line: string): (r: Option<string>)
    ensures r.Some? ==> r.value != [] && IsStripped(r.value)
  {
    if Contains(line, WebAddressMarker) && ':' in line then
      var addr := Strip(SplitOnce(line, ':').value.1);
      if addr != [] then Some(addr) else None
    else None
  }

  /** The domain list of the batched listing: the first line with an address decides; else none. */
  function WebAddressOf(lines: seq<string>): (r: seq<string>)
    ensures |r| <= 1
  {
    if lines == [] then []
    else
      match WebAddressOfLine(lines[0])
      case Some(addr) => [addr]
      case None => WebAddressOf(lines[1..])
  }

  method ScanWebAddress(output: string) returns (domains: seq<string>)
    ensures domains == WebAddressOf(Lines(output))
  {
    var lines := Lines(output);
    domains := [];
    var i := 0;
    while i < |lines|
      invariant 0 <= i <= |lines|
      invariant WebAddressOf(lines[i..]) == WebAddressOf(lines)
    {
      var line := lines[i];
      assert lines[i..][1..] == lines[i + 1..];
      if Contains(line, WebAddressMarker) {
        var parts := SplitOnce(line, ':');
        if parts.Some? && Strip(parts.value.1) != [] {
          domains := [Strip(parts.value.1)];
          break;
        }
      }
      i := i + 1;
    }
  }

  /** Line `k` is the first line of the report that yields an address. */
  predicate IsFirstAddress(lines: seq<string>, k: int) {
    0 <= k < |lines| && WebAddressOfLine(lines[k]).Some?
    && forall j :: 0 <= j < k ==> WebAddressOfLine(lines[j]).None?
  }

  /**
   * The batched listing shows the first non-empty address on a marker line,
   * and no domain when there is none.
   */
  lemma {:induction false} WebAddressFirstLine(lines: seq<string>)
    ensures (forall k :: 0 <= k < |lines| ==> WebAddressOfLine(lines[k]).None?) ==> WebAddressOf(lines) == []
    ensures forall k :: IsFirstAddress(lines, k) ==> WebAddressOf(lines) == [WebAddressOfLine(lines[k]).value]
  {
    if lines != [] {
      var tail := lines[1..];
      WebAddressFirstLine(tail);
      assert forall k :: 1 <= k < |lines| ==> lines[k] == tail[k - 1];
      forall k | IsFirstAddress(lines, k) && k > 0
        ensures IsFirstAddress(tail, k - 1)
      {
        forall j | 0 <= j < k - 1 ensures WebAddressOfLine(tail[j]).None? {
          assert tail[j] == lines[j + 1];
        }
      }
    }
  }

  /**
   * One application of the batched listing. `report` is the stdout of its
   * `ps:report`, or `None` when the call timed out or failed.
   */
  function QuickApp(name: string, report: Option<string>): (a: App)
    ensures a.name == name && a.container_count == 0 && a.created_at == "" && a.deploy_source == ""
    ensures a.status in {Running, Stopped, Unknown}
    ensures |a.domains| <= 1 && a.web_url == WebUrl(a.domains)
    ensures report.None? ==> a == NewApp(name)
    ensures report.Some? ==> a.status == QuickStatus(report.value) && a.domains == WebAddressOf(Lines(report.value))
  {
    match report
    case None => App(name, Unknown, 0, [], "", "", "")
    case Some(output) =>
      var domains := WebAddressOf(Lines(output));
      App(name, QuickStatus(output), 0, domains, "", "", WebUrl(domains))
  }

  /**
   * `get_all_apps`: one application per name of the `apps:list` stdout, in
   * listing order. `reports` maps an application to its `ps:report` stdout;
   * an application missing from it is one whose report timed out or failed.
   */
  method GetAllApps(listStdout: string, reports: map<string, string>) returns (apps: seq<App>)
    ensures |apps| == |AppsList(listStdout)|
    ensures forall k :: 0 <= k < |apps| ==>
      var name := AppsList(listStdout)[k];
      apps[k] == QuickApp(name, ReportOf(name, reports))
  {
    var names := AppsList(listStdout);
    apps := [];
    for i := 0 to |names|
      invariant |apps| == i
      invariant forall k :: 0 <= k < i ==> apps[k] == QuickApp(names[k], ReportOf(names[k], reports))
    {
      var app := ReadQuickApp(names[i], reports);
      apps := apps + [app];
    }
  }

  /** The `ps:report` stdout of an application, or `None` when its call timed out or failed. */
  function ReportOf(name: string, reports: map<string, string>): Option<string> {
    if name in reports then Some(reports[name]) else None
  }

  /** The body of the batched loop for one application. */
  method ReadQuickApp(name: string, reports: map<string, string>) returns (app: App)
    ensures app == QuickApp(name, ReportOf(name, reports))
  {
    if name in reports {
      var output := reports[name];
      var status := QuickStatus(output);
      var domains := ScanWebAddress(output);
      app := App(name, status, 0, domains, "", "", WebUrl(domains));
    } else {
      app := App(name, Unknown, 0, [], "", "", "");
    }
  }

  // ---------------------------------------------------------------- app_info

  /**
   * `app_info` from the outputs of its four reports: `ps:report` (read twice,
   * for the status and the count), `domains:report` and `git:report`.
   */
  function AppInfo(name: string, statusOutput: string, domainsOutput: string, psOutput: string, gitOutput: string): (a: App)
    ensures a.name == name && a.status == StatusOf(statusOutput)
    ensures a.domains == DomainsOf(Lines(domainsOutput))
    ensures a.container_count == ContainerCountOf(Lines(psOutput))
    ensures a.deploy_source == DeploySourceOf(Lines(gitOutput))
    ensures a.created_at == "" && a.web_url == WebUrl(a.domains)
  {
    var domains := DomainsOf(Lines(domainsOutput));
    App(name, StatusOf(statusOutput), ContainerCountOf(Lines(psOutput)), domains, "",
        DeploySourceOf(Lines(gitOutput)), WebUrl(domains))
  }

  // ---------------------------------------------------------------- commands

  /** A command line and the number of seconds `run` waits for it. */
  datatype Command = Command(line: string, timeout: nat)

  /** The wait `run` applies when the caller names none. */
  const DefaultTimeout: nat := 30

  /** A read-only report about one application (`ps:report`, `domains:report`, `git:report`, `config:show`). */
  function ReportCommand(report: string, app: string): (c: Command)
    ensures c.timeout == DefaultTimeout
  {
    Command(report + " " + app, DefaultTimeout)
  }

  datatype Lifecycle = Start | Stop | Restart | Rebuild

  function LifecycleVerb(op: Lifecycle): string {
    match op
    case Start => "ps:start"
    case Stop => "ps:stop"
    case Restart => "ps:restart"
    case Rebuild => "ps:rebuild"
  }

  function LifecycleCommand(op: Lifecycle, app: string): Command {
    Command(LifecycleVerb(op) + " " + app,
      match op
      case Start => 60
      case Stop => 60
      case Restart => 120
      case Rebuild => 300)
  }

  /**
   * Start and stop wait a minute, restart two, rebuild five; all wait longer
   * than a report.
   */
  lemma LifecycleTimeouts(app: string)
    ensures LifecycleCommand(Start, app).timeout == LifecycleCommand(Stop, app).timeout == 60
    ensures LifecycleCommand(Restart, app).timeout == 120
    ensures LifecycleCommand(Rebuild, app).timeout == 300
    ensures forall op :: LifecycleCommand(op, app).timeout > ReportCommand("ps:report", app).timeout
  {
  }

  lemma BlankThenWords(rest: string)
    ensures Words(" " + rest, Unquoted, [], false) == Words(rest, Unquoted, [], false)
  {
    assert (" " + rest)[0] == ' ' && (" " + rest)[1..] == rest;
  }

  /** Two plain words make a two-word command line. */
  lemma TwoPlainWords(verb: string, app: string)
    requires IsPlainWord(verb) && IsPlainWord(app)
    ensures ShellWords(verb + " " + app) == Some([verb, app])
  {
    PlainWordThenBlank(verb, app);
    PlainRun(app, [], [], false);
    assert app + [] == app && [] + app == app;
    EndOfLine(app);
    assert Words(app, Unquoted, [], false) == Some([app]);
    assert Words(verb + " " + app, Unquoted, [], false) == Prepend(verb, Some([app]));
    assert [verb] + [app] == [verb, app];
    assert ShellWords(verb + " " + app) == Words(verb + " " + app, Unquoted, [], false);
  }

  lemma LifecycleWords(op: Lifecycle, app: string)
    requires IsPlainWord(app)
    ensures ShellWords(LifecycleCommand(op, app).line) == Some([LifecycleVerb(op), app])
  {
    PlainLifecycleVerb(op);
    TwoPlainWords(LifecycleVerb(op), app);
  }

  lemma PlainLifecycleVerb(op: Lifecycle)
    ensures IsPlainWord(LifecycleVerb(op))
  {
    var w := LifecycleVerb(op);
    forall i | 0 <= i < |w| ensures IsPlainChar(w[i]) {
      assert w[i] == ':' || 'a' <= w[i] <= 'z';
    }
  }

  lemma ReportWords(report: string, app: string)
    requires IsPlainWord(report) && IsPlainWord(app)
    ensures ShellWords(ReportCommand(report, app).line) == Some([report, app])
  {
    TwoPlainWords(report, app);
  }

  /** `value.replace("'", "'\"'\"'")`: each single-quote closes the quotes, is double-quoted, and reopens them. */
  function EscapeValue(v: string): string {
    ReplaceAll(v, "'", "'\"'\"'")
  }

  /**
   * Inside single-quotes, an escaped value followed by the closing quote is
   * read back by the shell as exactly the value.
   */
  lemma {:induction false} EscapedRun(v: string, rest: string, cur: string)
    ensures Words(EscapeValue(v) + "'" + rest, SingleQuoted, cur, true) == Words(rest, Unquoted, cur + v, true)
  {
    if v == [] {
      assert EscapeValue(v) + "'" + rest == "'" + rest;
      CloseSingle(rest, cur);
      assert cur + v == cur;
    } else {
      var x := v[0];
      var e := EscapeValue(v[1..]);
      assert v == [x] + v[1..];
      ReplaceCharCons(x, v[1..], '\'', "'\"'\"'");
      EscapedRun(v[1..], rest, cur + [x]);
      assert cur + [x] + v[1..] == cur + v;
      var h := if x == '\'' then "'\"'\"'" else [x];
      assert EscapeValue(v) == h + e;
      Regroup(h, e, "'", rest);
      if x == '\'' {
        QuotedQuote(e + "'" + rest, cur);
      } else {
        InSingle(x, e + "'" + rest, cur);
      }
    }
  }

  /** Any value, escaped and put between single-quotes, is one shell word equal to the value. */
  lemma QuoteRoundTrip(v: string)
    ensures ShellWords("'" + EscapeValue(v) + "'") == Some([v])
  {
    OpenSingle(EscapeValue(v) + "'" + [], [], false);
    assert "'" + EscapeValue(v) + "'" == "'" + (EscapeValue(v) + "'" + []);
    EscapedRun(v, [], []);
    assert [] + v == v;
    EndOfLine(v);
  }

  function RestartFlag(restart: bool): string {
    if restart then "" else "--no-restart"
  }

  /** The words the restart flag contributes: none when restarting. */
  function RestartWords(restart: bool): seq<string> {
    if restart then [] else ["--no-restart"]
  }

  /** `config_set`: the value travels single-quoted and escaped; the app name and key go in verbatim. */
  function ConfigSetCommand(app: string, key: string, value: string, restart: bool): Command {
    // "config:set {flag} {app} {key}='{escaped}'", grouped from the right
    Command("config:set" + " " + (RestartFlag(restart) + " " + (app + " " + (key + "='" + EscapeValue(value) + "'"))), 120)
  }

  function ConfigUnsetCommand(app: string, key: string, restart: bool): Command {
    // "config:unset {flag} {app} {key}", grouped from the right
    Command("config:unset" + " " + (RestartFlag(restart) + " " + (app + " " + key)), 120)
  }

  /** The verbs and the flag need no quoting. */
  lemma PlainFlag()
    ensures IsPlainWord("--no-restart")
  {
    var w := "--no-restart";
    forall i | 0 <= i < |w| ensures IsPlainChar(w[i]) {
      assert w[i] == '-' || 'a' <= w[i] <= 'z';
    }
  }

  lemma PlainSetVerb()
    ensures IsPlainWord("config:set")
  {
    var w := "config:set";
    forall i | 0 <= i < |w| ensures IsPlainChar(w[i]) {
      assert w[i] == ':' || 'a' <= w[i] <= 'z';
    }
  }

  lemma PlainUnsetVerb()
    ensures IsPlainWord("config:unset")
  {
    var w := "config:unset";
    forall i | 0 <= i < |w| ensures IsPlainChar(w[i]) {
      assert w[i] == ':' || 'a' <= w[i] <= 'z';
    }
  }

  /** After the verb: the flag (when present), then the words of the rest of the line. */
  lemma FlagWords(restart: bool, tail: string, ws: seq<string>)
    requires Words(tail, Unquoted, [], false) == Some(ws)
    ensures Words(RestartFlag(restart) + " " + tail, Unquoted, [], false) == Some(RestartWords(restart) + ws)
  {
    if restart {
      assert RestartFlag(restart) + " " + tail == " " + tail;
      BlankThenWords(tail);
      assert [] + ws == ws;
    } else {
      PlainFlag();
      PlainWordThenBlank("--no-restart", tail);
      assert RestartFlag(restart) + " " + tail == "--no-restart" + " " + tail;
    }
  }

  /** A plain word, a blank, then the words of the rest of the line. */
  lemma WordThen(w: string, tail: string, ws: seq<string>)
    requires IsPlainWord(w)
    requires Words(tail, Unquoted, [], false) == Some(ws)
    ensures Words(w + " " + tail, Unquoted, [], false) == Some([w] + ws)
  {
    PlainWordThenBlank(w, tail);
  }

  /** `KEY='escaped value'` is the single word `KEY=value`. */
  lemma AssignmentWord(key: string, value: string)
    requires IsPlainWord(key)
    ensures Words(key + "='" + EscapeValue(value) + "'", Unquoted, [], false) == Some([key + "=" + value])
  {
    var quoted := "'" + EscapeValue(value) + "'";
    assert IsPlainWord(key + "=");
    PlainRun(key + "=", quoted, [], false);
    assert key + "='" + EscapeValue(value) + "'" == (key + "=") + quoted;
    assert quoted == "'" + (EscapeValue(value) + "'" + []);
    assert [] + (key + "=") == key + "=";
    OpenSingle(EscapeValue(value) + "'" + [], key + "=", true);
    EscapedRun(value, [], key + "=");
    EndOfLine(key + "=" + value);
  }

  /**
   * For a plain application name and key, the shell hands `config:set` the
   * optional flag, the name, and the single argument `KEY=value` holding the
   * value exactly, whatever characters it contains.
   */
  lemma ConfigSetWords(app: string, key: string, value: string, restart: bool)
    requires IsPlainWord(app) && IsPlainWord(key)
    ensures ShellWords(ConfigSetCommand(app, key, value, restart).line)
      == Some(["config:set"] + RestartWords(restart) + [app, key + "=" + value])
  {
    var arg := key + "='" + EscapeValue(value) + "'";
    var kv := key + "=" + value;
    AssignmentWord(key, value);
    WordThen(app, arg, [kv]);
    var tail := app + " " + arg;
    assert [app] + [kv] == [app, kv];
    FlagWords(restart, tail, [app, kv]);
    var flagged := RestartFlag(restart) + " " + tail;
    PlainSetVerb();
    WordThen("config:set", flagged, RestartWords(restart) + [app, kv]);
    assert ["config:set"] + (RestartWords(restart) + [app, kv]) == ["config:set"] + RestartWords(restart) + [app, kv];
  }

  /** For a plain application name and key, `config:unset` receives the optional flag, the name and the key. */
  lemma ConfigUnsetWords(app: string, key: string, restart: bool)
    requires IsPlainWord(app) && IsPlainWord(key)
    ensures ShellWords(ConfigUnsetCommand(app, key, restart).line)
      == Some(["config:unset"] + RestartWords(restart) + [app, key])
  {
    var tail := app + " " + key;
    TwoPlainWords(app, key);
    assert Words(tail, Unquoted, [], false) == Some([app, key]);
    FlagWords(restart, tail, [app, key]);
    var flagged := RestartFlag(restart) + " " + tail;
    PlainUnsetVerb();
    WordThen("config:unset", flagged, RestartWords(restart) + [app, key]);
    assert ["config:unset"] + (RestartWords(restart) + [app, key]) == ["config:unset"] + RestartWords(restart) + [app, key];
  }
}
