/**
 * The plugins page: the lines of `dokku plugin:list` become name, version
 * and description, and each plugin is shown with the applications that use
 * it — the services a datastore plugin lists, or the applications that hold
 * a letsencrypt directory.
 *
 * The output of `dokku <plugin>:list` is a parameter, as a function from the
 * plugin's name to what the command prints.
 */
module Plugins {
  import opened Wrappers
  import opened PyStr
  import opened Host
  import Services

  /** The banner and rule lines dokku prints around a listing. */
  predicate IsDecoration(line: string) {
    StartsWith(line, "===") || StartsWith(line, "----")
  }

  /** The three fields of a plugin line. */
  datatype PluginLine = PluginLine(name: string, version: string, description: string)

  /** A plugin as the page shows it. */
  datatype Plugin = Plugin(name: string, version: string, description: string, apps: seq<string>)

  /**
   * One line of `plugin:list`, stripped: blank and decoration lines and lines
   * with fewer than two fields give nothing; otherwise the first two
   * whitespace-separated fields and the remainder after them.
   */
  function PluginOf(raw: string): (r: Option<PluginLine>)
    ensures r.Some? ==> IsToken(r.value.name) && IsToken(r.value.version)
    ensures r.Some? ==> r.value.description == [] || !IsSpace(r.value.description[0])
    ensures r.Some? ==> Strip(raw) != [] && !IsDecoration(Strip(raw))
  {
    var line := Strip(raw);
    if line == [] || IsDecoration(line) then None
    else
      var parts := SplitWsMax2(line);
      if |parts| >= 2 then Some(PluginLine(parts[0], parts[1], if |parts| > 2 then parts[2] else ""))
      else None
  }

  /** The line `plugin:list` prints for a plugin, fields separated by single spaces. */
  function PluginListLine(p: PluginLine): string {
    p.name + " " + p.version + SpacedTail(p.description)
  }

  /** A plugin line whose name does not begin like a decoration is read back exactly. */
  lemma PluginLineRoundTrip(p: PluginLine)
    requires IsToken(p.name) && IsToken(p.version) && IsStripped(p.description)
    requires p.name[0] != '=' && p.name[0] != '-'
    ensures PluginOf(PluginListLine(p)) == Some(p)
  {
    var line := PluginListLine(p);
    assert line[0] == p.name[0];
    assert IsStripped(line) by {
      if p.description == [] {
        assert line == p.name + " " + p.version;
      } else {
        assert line == p.name + " " + p.version + " " + p.description;
      }
    }
    StripStripped(line);
    NotDecoration(line);
    SplitWsMax2Fields(p.name, p.version, p.description);
    var parts := SplitWsMax2(line);
    assert parts[0] == p.name && parts[1] == p.version;
    assert (if |parts| > 2 then parts[2] else "") == p.description;
  }

  /** A line holding only a name gives no plugin. */
  lemma PluginSingleField(w: string)
    requires IsToken(w)
    ensures PluginOf(w).None?
  {
    assert IsStripped(w);
    StripStripped(w);
    SplitWsMax2Token(w);
  }

  /** The plugin lines of a listing, in order. */
  function PluginLines(lines: seq<string>): (r: seq<PluginLine>)
    ensures |r| <= |lines|
  {
    if lines == [] then []
    else
      var rest := PluginLines(lines[1..]);
      match PluginOf(lines[0])
      case None => rest
      case Some(p) => [p] + rest
  }

  // ------------------------------------------------------------ apps per plugin

  /** The plugins whose apps are their services. */
  const ServicePlugins: seq<string> := ["postgres", "redis", "mysql", "mongo", "elasticsearch"]

  /** Every datastore the services page reads is a service plugin here. */
  lemma ServiceTypesArePlugins(t: Services.ServiceType)
    ensures Services.TypeName(t) in ServicePlugins
  {
    match t
    case Redis => assert ServicePlugins[1] == "redis";
    case Postgres => assert ServicePlugins[0] == "postgres";
    case Mysql => assert ServicePlugins[2] == "mysql";
    case Mongo => assert ServicePlugins[3] == "mongo";
  }

  /** A line of `<plugin>:list` that names a service: not empty, not decoration. */
  predicate IsServiceLine(line: string) {
    line != [] && !IsDecoration(line)
  }

  /**
   * The first field of each service line. Lines are not stripped, so a
   * whitespace-only line has no first field and the listing fails (`None`).
   */
  function ServiceNamesFrom(lines: seq<string>): (r: Option<seq<string>>)
    ensures r.Some? ==> forall k :: 0 <= k < |r.value| ==> IsToken(r.value[k])
  {
    if lines == [] then Some([])
    else if !IsServiceLine(lines[0]) then ServiceNamesFrom(lines[1..])
    else
      var fields := SplitWs(lines[0]);
      if fields == [] then None
      else
        Prepend([fields[0]], ServiceNamesFrom(lines[1..]))
  }

  /** The service listing fails exactly when some service line is whitespace only. */
  lemma {:induction false} ServiceNamesFailure(lines: seq<string>)
    ensures ServiceNamesFrom(lines).None? <==>
      exists k :: 0 <= k < |lines| && IsServiceLine(lines[k]) && SplitWs(lines[k]) == []
  {
    if lines != [] {
      ServiceNamesFailure(lines[1..]);
      if exists k :: 0 <= k < |lines[1..]| && IsServiceLine(lines[1..][k]) && SplitWs(lines[1..][k]) == [] {
        var k :| 0 <= k < |lines[1..]| && IsServiceLine(lines[1..][k]) && SplitWs(lines[1..][k]) == [];
        assert lines[k + 1] == lines[1..][k];
      }
      if exists k :: 0 <= k < |lines| && IsServiceLine(lines[k]) && SplitWs(lines[k]) == [] {
        var k :| 0 <= k < |lines| && IsServiceLine(lines[k]) && SplitWs(lines[k]) == [];
        if k > 0 {
          assert lines[1..][k - 1] == lines[k];
        }
      }
    }
  }

  /** Service rows: each a name followed by further columns or nothing. */
  function ServiceRows(names: seq<string>, tails: seq<string>): seq<string>
    requires |names| == |tails|
  {
    if names == [] then [] else [names[0] + tails[0]] + ServiceRows(names[1..], tails[1..])
  }

  /** The first field of each row is its service name, so the names are read back in order. */
  lemma {:induction false} ServiceNamesRoundTrip(names: seq<string>, tails: seq<string>)
    requires |names| == |tails|
    requires forall k :: 0 <= k < |names| ==> IsToken(names[k]) && names[k][0] != '=' && names[k][0] != '-'
    requires forall k :: 0 <= k < |tails| ==> tails[k] == [] || IsSpace(tails[k][0])
    ensures ServiceNamesFrom(ServiceRows(names, tails)) == Some(names)
  {
    if names != [] {
      var rows := ServiceRows(names, tails);
      var row := names[0] + tails[0];
      assert rows[0] == row && rows[1..] == ServiceRows(names[1..], tails[1..]);
      assert row[0] == names[0][0];
      NotDecoration(row);
      SplitWsCons(names[0], tails[0]);
      ServiceNamesRoundTrip(names[1..], tails[1..]);
      assert [names[0]] + names[1..] == names;
    }
  }

  lemma NotDecoration(line: string)
    requires line != [] && line[0] != '=' && line[0] != '-'
    ensures !IsDecoration(line)
  {
    if |line| >= 3 {
      assert line[..3][0] == line[0];
    }
    if |line| >= 4 {
      assert line[..4][0] == line[0];
    }
  }

  /** The service-list loop of `_get_plugin_apps`, failing on a whitespace-only line. */
  method ServiceListApps(stdout: string) returns (r: Option<seq<string>>)
    ensures r == ServiceNamesFrom(StrippedLines(stdout))
  {
    var lines := StrippedLines(stdout);
    var apps: seq<string> := [];
    var i := 0;
    PrependEmpty(ServiceNamesFrom(lines));
    assert lines[0..] == lines;
    while i < |lines|
      invariant 0 <= i <= |lines|
      invariant ServiceNamesFrom(lines) == Prepend(apps, ServiceNamesFrom(lines[i..]))
    {
      var line := lines[i];
      ServiceNamesAt(lines, i);
      if line != [] && !StartsWith(line, "===") && !StartsWith(line, "----") {
        var fields := SplitWs(line);
        if fields == [] {
          return None;
        }
        PrependSnoc(apps, fields[0], ServiceNamesFrom(lines[i + 1..]));
        apps := apps + [fields[0]];
      }
      i := i + 1;
    }
    assert lines[|lines|..] == [];
    assert apps + [] == apps;
    return Some(apps);
  }

  /** The service names from line `i` on, by what line `i` is. */
  lemma ServiceNamesAt(lines: seq<string>, i: nat)
    requires i < |lines|
    ensures ServiceNamesFrom(lines[i..]) ==
      if lines[i] == [] || StartsWith(lines[i], "===") || StartsWith(lines[i], "----") then ServiceNamesFrom(lines[i + 1..])
      else if SplitWs(lines[i]) == [] then None
      else Prepend([SplitWs(lines[i])[0]], ServiceNamesFrom(lines[i + 1..]))
  {
    assert lines[i..][0] == lines[i] && lines[i..][1..] == lines[i + 1..];
  }

  /** `xs` in front of a list that may have failed. */
  function Prepend<T>(xs: seq<T>, r: Option<seq<T>>): Option<seq<T>> {
    match r
    case None => None
    case Some(ys) => Some(xs + ys)
  }

  lemma PrependEmpty<T>(r: Option<seq<T>>)
    ensures Prepend([], r) == r
  {
    if r.Some? {
      assert [] + r.value == r.value;
    }
  }

  lemma PrependSnoc<T>(xs: seq<T>, x: T, r: Option<seq<T>>)
    ensures Prepend(xs, Prepend([x], r)) == Prepend(xs + [x], r)
  {
    if r.Some? {
      assert xs + ([x] + r.value) == xs + [x] + r.value;
    }
  }

  /** The letsencrypt scan: application directories that hold a `letsencrypt` directory. */
  function LetsencryptFrom(entries: seq<HomeEntry>): seq<string> {
    if entries == [] then []
    else
      var rest := LetsencryptFrom(entries[1..]);
      if IsAppDirName(entries[0].name) && entries[0].letsencrypt then [entries[0].name] + rest else rest
  }

  /** An application is listed iff it is an application directory with a letsencrypt directory. */
  lemma {:induction false} LetsencryptMembers(entries: seq<HomeEntry>)
    ensures forall a :: a in LetsencryptFrom(entries) <==>
      exists e :: e in entries && e.name == a && IsAppDirName(a) && e.letsencrypt
  {
    if entries != [] {
      var rest := entries[1..];
      LetsencryptMembers(rest);
      assert forall e :: e in entries ==> e == entries[0] || e in rest;
      forall a | exists e :: e in entries && e.name == a && IsAppDirName(a) && e.letsencrypt
        ensures a in LetsencryptFrom(entries)
      {
        var e :| e in entries && e.name == a && IsAppDirName(a) && e.letsencrypt;
        if e != entries[0] {
          assert e in rest;
        }
      }
      forall a | a in LetsencryptFrom(rest)
        ensures exists e :: e in entries && e.name == a && IsAppDirName(a) && e.letsencrypt
      {
        var e :| e in rest && e.name == a && IsAppDirName(a) && e.letsencrypt;
        assert e in entries;
      }
    }
  }

  method LetsencryptApps(home: HomeListing) returns (apps: seq<string>)
    ensures apps == (match home case None => [] case Some(entries) => LetsencryptFrom(entries))
  {
    apps := [];
    if home.None? {
      return;
    }
    var entries := home.value;
    var i := 0;
    while i < |entries|
      invariant 0 <= i <= |entries|
      invariant apps + LetsencryptFrom(entries[i..]) == LetsencryptFrom(entries)
    {
      var e := entries[i];
      assert entries[i..][0] == e && entries[i..][1..] == entries[i + 1..];
      if IsAppDirName(e.name) && e.letsencrypt {
        assert apps + [e.name] + LetsencryptFrom(entries[i + 1..]) == apps + ([e.name] + LetsencryptFrom(entries[i + 1..]));
        apps := apps + [e.name];
      }
      i := i + 1;
    }
    assert entries[|entries|..] == [];
  }

  /**
   * `_get_plugin_apps`: a service plugin's services, letsencrypt's
   * certificate holders, nothing for any other plugin. `None` when the
   * service listing fails.
   */
  function PluginApps(name: string, listOutput: string -> string, home: HomeListing): (r: Option<seq<string>>)
    ensures name !in ServicePlugins ==> r.Some?
    ensures name !in ServicePlugins && name != "letsencrypt" ==> r == Some([])
  {
    if name in ServicePlugins then ServiceNamesFrom(StrippedLines(listOutput(name)))
    else if name == "letsencrypt" then
      match home
      case None => Some([])
      case Some(entries) => Some(LetsencryptFrom(entries))
    else Some([])
  }

  method GetPluginApps(name: string, listOutput: string -> string, home: HomeListing) returns (r: Option<seq<string>>)
    ensures r == PluginApps(name, listOutput, home)
  {
    if name in ServicePlugins {
      r := ServiceListApps(listOutput(name));
    } else if name == "letsencrypt" {
      var apps := LetsencryptApps(home);
      r := Some(apps);
    } else {
      r := Some([]);
    }
  }

  // ------------------------------------------------------------ the listing

  /** `list_plugins` over the lines of `plugin:list`; `None` when a plugin's app lookup fails. */
  function PluginsFrom(lines: seq<string>, listOutput: string -> string, home: HomeListing): Option<seq<Plugin>> {
    if lines == [] then Some([])
    else PluginsCons(lines[0], PluginsFrom(lines[1..], listOutput, home), listOutput, home)
  }

  /** One line of `plugin:list` in front of the plugins of the lines after it. */
  function PluginsCons(line: string, tail: Option<seq<Plugin>>, listOutput: string -> string, home: HomeListing)
    : Option<seq<Plugin>>
  {
    match PluginOf(line)
    case None => tail
    case Some(p) =>
      match PluginApps(p.name, listOutput, home)
      case None => None
      case Some(apps) => Prepend([Plugin(p.name, p.version, p.description, apps)], tail)
  }

  method ListPlugins(stdout: string, listOutput: string -> string, home: HomeListing) returns (r: Option<seq<Plugin>>)
    ensures r == PluginsFrom(StrippedLines(stdout), listOutput, home)
  {
    var lines := StrippedLines(stdout);
    var plugins: seq<Plugin> := [];
    var i := 0;
    PrependEmpty(PluginsFrom(lines, listOutput, home));
    assert lines[0..] == lines;
    while i < |lines|
      invariant 0 <= i <= |lines|
      invariant PluginsFrom(lines, listOutput, home) == Prepend(plugins, PluginsFrom(lines[i..], listOutput, home))
    {
      PluginsFromAt(lines, i, listOutput, home);
      ghost var tail := PluginsFrom(lines[i + 1..], listOutput, home);
      var p := PluginOf(lines[i]);
      if p.Some? {
        var apps := GetPluginApps(p.value.name, listOutput, home);
        if apps.None? {
          return None;
        }
        var plugin := Plugin(p.value.name, p.value.version, p.value.description, apps.value);
        PrependSnoc(plugins, plugin, tail);
        plugins := plugins + [plugin];
      }
      i := i + 1;
    }
    assert lines[|lines|..] == [];
    assert plugins + [] == plugins;
    return Some(plugins);
  }

  /** The listing from line `i` on is line `i` in front of the listing from line `i + 1` on. */
  lemma PluginsFromAt(lines: seq<string>, i: nat, listOutput: string -> string, home: HomeListing)
    requires i < |lines|
    ensures PluginsFrom(lines[i..], listOutput, home)
      == PluginsCons(lines[i], PluginsFrom(lines[i + 1..], listOutput, home), listOutput, home)
  {
    assert lines[i..][0] == lines[i] && lines[i..][1..] == lines[i + 1..];
  }

  /** One plugin per accepted line, in output order, carrying that line's fields. */
  lemma {:induction false} PluginsFollowLines(lines: seq<string>, listOutput: string -> string, home: HomeListing)
    ensures PluginsFrom(lines, listOutput, home).Some? ==>
      var ps := PluginsFrom(lines, listOutput, home).value;
      |ps| == |PluginLines(lines)| &&
      forall k :: 0 <= k < |ps| ==>
        ps[k].name == PluginLines(lines)[k].name && ps[k].version == PluginLines(lines)[k].version
        && ps[k].description == PluginLines(lines)[k].description
        && Some(ps[k].apps) == PluginApps(ps[k].name, listOutput, home)
  {
    if lines != [] && PluginsFrom(lines, listOutput, home).Some? {
      var rest := lines[1..];
      var tail := PluginsFrom(rest, listOutput, home);
      PluginsFollowLines(rest, listOutput, home);
      match PluginOf(lines[0])
      case None =>
        assert PluginLines(lines) == PluginLines(rest);
      case Some(p) =>
        var apps := PluginApps(p.name, listOutput, home).value;
        var ps := PluginsFrom(lines, listOutput, home).value;
        var pls := PluginLines(lines);
        assert tail.Some? && ps == [Plugin(p.name, p.version, p.description, apps)] + tail.value;
        assert pls == [p] + PluginLines(rest);
        PluginsShifted(ps, pls, tail.value, PluginLines(rest), listOutput, home);
    }
  }

  /** The step of `PluginsFollowLines`: the facts of the tail carry over past the new head. */
  lemma PluginsShifted(ps: seq<Plugin>, pls: seq<PluginLine>, tps: seq<Plugin>, tls: seq<PluginLine>,
                       listOutput: string -> string, home: HomeListing)
    requires |ps| >= 1 && |pls| >= 1 && ps[1..] == tps && pls[1..] == tls
    requires ps[0].name == pls[0].name && ps[0].version == pls[0].version && ps[0].description == pls[0].description
    requires Some(ps[0].apps) == PluginApps(ps[0].name, listOutput, home)
    requires |tps| == |tls|
    requires forall k :: 0 <= k < |tps| ==>
        tps[k].name == tls[k].name && tps[k].version == tls[k].version
        && tps[k].description == tls[k].description
        && Some(tps[k].apps) == PluginApps(tps[k].name, listOutput, home)
    ensures |ps| == |pls|
    ensures forall k :: 0 <= k < |ps| ==>
        ps[k].name == pls[k].name && ps[k].version == pls[k].version
        && ps[k].description == pls[k].description
        && Some(ps[k].apps) == PluginApps(ps[k].name, listOutput, home)
  {
    forall k | 1 <= k < |ps|
      ensures ps[k].name == pls[k].name && ps[k].version == pls[k].version
        && ps[k].description == pls[k].description
        && Some(ps[k].apps) == PluginApps(ps[k].name, listOutput, home)
    {
      assert ps[k] == tps[k - 1] && pls[k] == tls[k - 1];
    }
  }
}
