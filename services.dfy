/**
 * Discovery of the datastore services managed by the dokku redis, postgres,
 * mysql and mongo plugins. Each plugin keeps one directory per service under
 * `/var/lib/dokku/services/<type>`; the dashboard asks docker for the state
 * and image of the service's container, reads the connection string from the
 * service's `ENV` file, and looks for applications whose own `ENV` file
 * mentions the service.
 *
 * Directory listings, file contents and docker's output are parameters.
 */
module Services {
  import opened Wrappers
  import opened PyStr
  import opened Models
  import opened Host

  datatype ServiceType = Redis | Postgres | Mysql | Mongo

  function TypeName(t: ServiceType): string {
    match t
    case Redis => "redis"
    case Postgres => "postgres"
    case Mysql => "mysql"
    case Mongo => "mongo"
  }

  /** The position of a service type in the combined listing. */
  function TypeRank(t: ServiceType): nat {
    match t
    case Redis => 0
    case Postgres => 1
    case Mysql => 2
    case Mongo => 3
  }

  const ServicesRoot := "/var/lib/dokku/services"

  /** The directory of one service of type `t`. */
  function ServicePath(t: ServiceType, name: string): string {
    ServicesRoot + "/" + TypeName(t) + "/" + name
  }

  /** Distinct services of one type live in distinct directories. */
  lemma ServicePathInjective(t: ServiceType, a: string, b: string)
    requires ServicePath(t, a) == ServicePath(t, b)
    ensures a == b
  {
    var d := ServicesRoot + "/" + TypeName(t) + "/";
    assert ServicePath(t, a) == d + a && ServicePath(t, b) == d + b;
    assert a == (d + a)[|d|..] && b == (d + b)[|d|..];
  }

  // ------------------------------------------------------------ docker inspect

  /** The fields of `docker inspect --format "{{.State.Status}}|{{.Config.Image}}"`. */
  function InspectFields(stdout: string): (r: seq<string>)
    ensures stdout != [] ==> |r| >= 1 && forall k :: 0 <= k < |r| ==> '|' !in r[k]
  {
    if stdout == [] then [] else Split(Strip(stdout), '|')
  }

  /** "running" exactly when the container's state field is "running"; "stopped" otherwise. */
  function InspectStatus(stdout: string): (r: string)
    ensures r == "running" || r == "stopped"
    ensures r == "running" <==> |InspectFields(stdout)| >= 2 && InspectFields(stdout)[0] == "running"
  {
    var parts := InspectFields(stdout);
    if |parts| >= 2 && parts[0] == "running" then "running" else "stopped"
  }

  /**
   * The image field with the type's prefix removed, in the source's order of
   * removals, or "unknown" without an image field.
   */
  function InspectVersion(t: ServiceType, stdout: string): (r: string)
    ensures |InspectFields(stdout)| < 2 ==> r == "unknown"
  {
    var parts := InspectFields(stdout);
    if |parts| >= 2 then ImageVersion(t, parts[1]) else "unknown"
  }

  /** The image prefix each plugin's images carry. */
  function TypePrefix(t: ServiceType): (r: string)
    ensures r != [] && r[|r| - 1] == ':'
  {
    TypeName(t) + ":"
  }

  const RedisNamespacedPrefix := "redis/redis:"

  /**
   * The version shown for an image: every occurrence of the type's prefix
   * removed. For redis, `redis:` is removed first and `redis/redis:` after it.
   */
  function ImageVersion(t: ServiceType, image: string): string {
    if t == Redis then RedisVersionAsWritten(image)
    else ReplaceAll(image, TypePrefix(t), "")
  }

  /** The redis version as the removals are ordered in the source: `redis:` first. */
  function RedisVersionAsWritten(image: string): string {
    ReplaceAll(ReplaceAll(image, "redis:", ""), RedisNamespacedPrefix, "")
  }

  /**
   * The version the removals are meant to give: for redis the longer prefix
   * `redis/redis:` goes first, so a namespaced image loses its namespace too.
   */
  function IntendedVersion(t: ServiceType, image: string): string {
    if t == Redis then ReplaceAll(ReplaceAll(image, RedisNamespacedPrefix, ""), "redis:", "")
    else ReplaceAll(image, TypePrefix(t), "")
  }

  /**
   * Removing `redis:` first splits the namespaced prefix, so its namespace
   * survives: `redis/redis:7.2` is shown as `redis/7.2`, where `7.2` is meant.
   */
  lemma {:induction false} RedisVersionAsWrittenKeepsNamespace(tag: string)
    requires ':' !in tag && '/' !in tag
    ensures RedisVersionAsWritten(RedisNamespacedPrefix + tag) == "redis/" + tag
    ensures IntendedVersion(Redis, RedisNamespacedPrefix + tag) == tag
  {
    var s := RedisNamespacedPrefix + tag;
    assert s == "redis/" + ("redis:" + tag);
    NamespaceNotRedisPrefix(tag);
    NoMatchInOf("redis/", "redis:" + tag, "redis:");
    ReplaceKeepsHead("redis/", "redis:" + tag, "redis:", "");
    PrefixRemoved("redis:", tag);
    assert ReplaceAll(s, "redis:", "") == "redis/" + tag;
    AbsentChar("redis/" + tag, RedisNamespacedPrefix, 11);
    ReplaceAbsent("redis/" + tag, RedisNamespacedPrefix, "");
    VersionStripsPrefix(Redis, tag);
  }

  lemma NamespaceNotRedisPrefix(tag: string)
    ensures forall j :: 0 <= j < 6 ==> !StartsWith((RedisNamespacedPrefix + tag)[j..], "redis:")
  {
    var s := RedisNamespacedPrefix + tag;
    forall j | 0 <= j < 6 ensures !StartsWith(s[j..], "redis:") {
      if j == 0 {
        assert s[..6][5] == s[5] == '/';
      } else {
        assert s[j..][0] == s[j] != 'r';
      }
    }
  }

  /** With the intended order, a plain tag behind either accepted prefix is shown as the tag itself. */
  lemma VersionStripsPrefix(t: ServiceType, tag: string)
    requires ':' !in tag && '/' !in tag
    ensures IntendedVersion(t, TypePrefix(t) + tag) == tag
    ensures t == Redis ==> IntendedVersion(t, RedisNamespacedPrefix + tag) == tag
  {
    PrefixRemoved(TypePrefix(t), tag);
    if t == Redis {
      assert TypePrefix(t) == "redis:";
      NamespacedAbsent(tag);
      PrefixRemoved(RedisNamespacedPrefix, tag);
      PrefixRemoved("redis:", tag);
    }
  }

  /** Removing a prefix ending in `:` from a tag without `:` leaves the tag. */
  lemma PrefixRemoved(p: string, tag: string)
    requires p != [] && p[|p| - 1] == ':' && ':' !in tag
    ensures ReplaceAll(p + tag, p, "") == tag
    ensures ReplaceAll(tag, p, "") == tag
  {
    AbsentChar(tag, p, |p| - 1);
    ReplaceAbsent(tag, p, "");
    ReplacePrefix(p, tag, "");
  }

  lemma NamespacedAbsent(tag: string)
    requires '/' !in tag
    ensures ReplaceAll("redis:" + tag, RedisNamespacedPrefix, "") == "redis:" + tag
  {
    AbsentChar("redis:" + tag, RedisNamespacedPrefix, 5);
    ReplaceAbsent("redis:" + tag, RedisNamespacedPrefix, "");
  }


  /** An image reference without a `:` is shown unchanged, whichever order the removals take. */
  lemma VersionUntagged(t: ServiceType, image: string)
    requires ':' !in image
    ensures ImageVersion(t, image) == image
    ensures IntendedVersion(t, image) == image
  {
    assert t == Redis ==> TypePrefix(t) == "redis:";
    AbsentChar(image, TypePrefix(t), |TypePrefix(t)| - 1);
    ReplaceAbsent(image, TypePrefix(t), "");
    AbsentChar(image, RedisNamespacedPrefix, 11);
    ReplaceAbsent(image, RedisNamespacedPrefix, "");
  }

  /**
   * What the listing shows for the images the plugins pull: "<type>:<tag>"
   * shows the tag, while redis's namespaced "redis/redis:<tag>" keeps its
   * namespace and shows "redis/<tag>".
   */
  lemma ImageVersionOfTag(t: ServiceType, tag: string)
    requires ':' !in tag && '/' !in tag
    ensures ImageVersion(t, TypePrefix(t) + tag) == tag
    ensures t == Redis ==> ImageVersion(t, RedisNamespacedPrefix + tag) == "redis/" + tag
  {
    PrefixRemoved(TypePrefix(t), tag);
    if t == Redis {
      assert TypePrefix(t) == "redis:";
      AbsentChar(tag, RedisNamespacedPrefix, 11);
      ReplaceAbsent(tag, RedisNamespacedPrefix, "");
      RedisVersionAsWrittenKeepsNamespace(tag);
    }
  }

  /** The line docker prints for a container in `state` built from `image` is read back. */
  lemma InspectRoundTrip(t: ServiceType, state: string, image: string)
    requires IsToken(state) && IsToken(image) && '|' !in state && '|' !in image
    ensures InspectStatus(state + "|" + image + "\n") == (if state == "running" then "running" else "stopped")
    ensures InspectVersion(t, state + "|" + image + "\n") == ImageVersion(t, image)
  {
    var line := state + "|" + image;
    assert line == state + ['|'] + image;
    assert line[0] == state[0] && line[|line| - 1] == image[|image| - 1];
    assert IsSpace('\n');
    StripBeforeSpaces(line, "\n");
    assert state + "|" + image + "\n" == line + "\n";
    SplitOneSeparator(state, '|', image);
  }

  /** A container running a plugin's image of a plain tag is listed at the version `ImageVersionOfTag` gives. */
  lemma InspectShowsTag(t: ServiceType, state: string, tag: string)
    requires IsToken(state) && '|' !in state && NoSpace(tag)
    requires ':' !in tag && '/' !in tag && '|' !in tag
    ensures InspectVersion(t, state + "|" + TypePrefix(t) + tag + "\n") == tag
    ensures t == Redis ==> InspectVersion(t, state + "|" + RedisNamespacedPrefix + tag + "\n") == "redis/" + tag
  {
    ImageVersionOfTag(t, tag);
    PrefixesPlain(t);
    InspectPrefixed(t, state, TypePrefix(t), tag);
    if t == Redis {
      InspectPrefixed(t, state, RedisNamespacedPrefix, tag);
    }
  }

  lemma InspectPrefixed(t: ServiceType, state: string, p: string, tag: string)
    requires IsToken(state) && '|' !in state && NoSpace(tag) && '|' !in tag
    requires p != [] && NoSpace(p) && '|' !in p
    ensures InspectVersion(t, state + "|" + p + tag + "\n") == ImageVersion(t, p + tag)
  {
    var image := p + tag;
    assert IsToken(image) && '|' !in image by {
      assert forall i :: 0 <= i < |image| ==> image[i] == (if i < |p| then p[i] else tag[i - |p|]);
    }
    assert state + "|" + p + tag + "\n" == state + "|" + image + "\n";
    InspectRoundTrip(t, state, image);
  }

  lemma PrefixesPlain(t: ServiceType)
    ensures NoSpace(TypePrefix(t)) && '|' !in TypePrefix(t)
    ensures NoSpace(RedisNamespacedPrefix) && '|' !in RedisNamespacedPrefix
  {
    PlainNoSpace(TypePrefix(t));
    PlainNoSpace(RedisNamespacedPrefix);
  }

  /** Lower-case letters, ':' and '/': the characters of the image prefixes. */
  predicate IsImageChar(c: char) {
    'a' <= c <= 'z' || c == ':' || c == '/'
  }

  lemma PlainNoSpace(s: string)
    requires forall i :: 0 <= i < |s| ==> IsImageChar(s[i])
    ensures NoSpace(s) && '|' !in s
  {
    assert forall i :: 0 <= i < |s| ==> s[i] != '|';
  }

  /** Output without a field separator leaves the service stopped, at version "unknown". */
  lemma InspectSingleField(t: ServiceType, stdout: string)
    requires '|' !in stdout
    ensures InspectStatus(stdout) == "stopped" && InspectVersion(t, stdout) == "unknown"
  {
    if stdout != [] {
      var s := Strip(stdout);
      assert '|' !in s by {
        StripNoChar(stdout, '|');
      }
      assert IndexOf(s, '|').None?;
    }
  }

  // ------------------------------------------------------------- ENV file

  /** Whether an ENV line of a service of type `t` carries its connection string. */
  predicate DsnLineMatches(t: ServiceType, line: string) {
    match t
    case Redis => StartsWith(line, "export REDIS_URL=")
    case Postgres => Contains(line, "DATABASE_URL=")
    case Mysql => Contains(line, "DATABASE_URL=")
    case Mongo => Contains(line, "MONGO_URL=") || Contains(line, "DATABASE_URL=")
  }

  lemma MatchHasEquals(t: ServiceType, line: string)
    requires DsnLineMatches(t, line)
    ensures '=' in line
  {
    match t
    case Redis =>
      assert line[..17][16] == '=';
    case Postgres =>
      ContainsChar(line, "DATABASE_URL=", '=');
    case Mysql =>
      ContainsChar(line, "DATABASE_URL=", '=');
    case Mongo =>
      if Contains(line, "MONGO_URL=") {
        ContainsChar(line, "MONGO_URL=", '=');
      } else {
        ContainsChar(line, "DATABASE_URL=", '=');
      }
  }

  /** The text after the first `=`, stripped of whitespace, then of `"`, then of `'`. */
  function DsnValue(line: string): (r: string)
    requires '=' in line
    ensures r == [] || (r[0] != '\'' && r[|r| - 1] != '\'')
  {
    StripChar(StripChar(Strip(SplitOnce(line, '=').value.1), '"'), '\'')
  }

  /** The connection string: the value of the first matching line, or "". */
  function DsnOf(t: ServiceType, lines: seq<string>): string {
    if lines == [] then ""
    else if DsnLineMatches(t, lines[0]) then (MatchHasEquals(t, lines[0]); DsnValue(lines[0]))
    else DsnOf(t, lines[1..])
  }

  /** The lines of a file as `for line in f` yields them, less their line terminators. */
  function FileLines(content: string): seq<string> {
    Split(content, '\n')
  }

  /** The connection string read from an ENV file that may be missing or unreadable. */
  function EnvDsn(t: ServiceType, env: Option<string>): string {
    match env
    case None => ""
    case Some(content) => DsnOf(t, FileLines(content))
  }

  /** The ENV reading loop, leaving at the first matching line. */
  method ScanDsn(t: ServiceType, lines: seq<string>) returns (dsn: string)
    ensures dsn == DsnOf(t, lines)
  {
    dsn := "";
    var i := 0;
    while i < |lines|
      invariant 0 <= i <= |lines|
      invariant DsnOf(t, lines[i..]) == DsnOf(t, lines)
    {
      var line := lines[i];
      assert lines[i..][1..] == lines[i + 1..];
      if DsnLineMatches(t, line) {
        MatchHasEquals(t, line);
        dsn := DsnValue(line);
        break;
      }
      i := i + 1;
    }
  }

  /** Line `k` is the first line that carries a connection string for type `t`. */
  predicate IsFirstDsnLine(t: ServiceType, lines: seq<string>, k: int) {
    0 <= k < |lines| && DsnLineMatches(t, lines[k])
    && forall j :: 0 <= j < k ==> !DsnLineMatches(t, lines[j])
  }

  /** The first matching line decides; without one the connection string is empty. */
  lemma DsnFirstLine(t: ServiceType, lines: seq<string>)
    ensures (forall k :: 0 <= k < |lines| ==> !DsnLineMatches(t, lines[k])) ==> DsnOf(t, lines) == ""
    ensures forall k :: IsFirstDsnLine(t, lines, k) ==>
      '=' in lines[k] && DsnOf(t, lines) == DsnValue(lines[k])
  {
    if forall k :: 0 <= k < |lines| ==> !DsnLineMatches(t, lines[k]) {
      DsnNoLine(t, lines);
    }
    forall k | IsFirstDsnLine(t, lines, k)
      ensures '=' in lines[k] && DsnOf(t, lines) == DsnValue(lines[k])
    {
      DsnAtFirst(t, lines, k);
    }
  }

  lemma {:induction false} DsnNoLine(t: ServiceType, lines: seq<string>)
    requires forall k :: 0 <= k < |lines| ==> !DsnLineMatches(t, lines[k])
    ensures DsnOf(t, lines) == ""
  {
    if lines != [] {
      assert !DsnLineMatches(t, lines[0]);
      DsnNoLine(t, lines[1..]);
    }
  }

  lemma {:induction false} DsnAtFirst(t: ServiceType, lines: seq<string>, k: nat)
    requires IsFirstDsnLine(t, lines, k)
    ensures '=' in lines[k] && DsnOf(t, lines) == DsnValue(lines[k])
  {
    MatchHasEquals(t, lines[k]);
    if k > 0 {
      var tail := lines[1..];
      assert !DsnLineMatches(t, lines[0]);
      forall j | 0 <= j < k - 1 ensures !DsnLineMatches(t, tail[j]) {
        assert tail[j] == lines[j + 1];
      }
      assert tail[k - 1] == lines[k];
      DsnAtFirst(t, tail, k - 1);
    }
  }

  /** The export line each plugin writes for its connection string. */
  function DsnLine(t: ServiceType, value: string): string {
    match t
    case Redis => "export REDIS_URL=" + value
    case Postgres => "export DATABASE_URL=" + value
    case Mysql => "export DATABASE_URL=" + value
    case Mongo => "export MONGO_URL=" + value
  }

  /** The variable name before the `=` of `DsnLine`. */
  function DsnKey(t: ServiceType): (r: string)
    ensures '=' !in r
    ensures forall v :: DsnLine(t, v) == r + "=" + v
  {
    match t
    case Redis => "export REDIS_URL"
    case Postgres => "export DATABASE_URL"
    case Mysql => "export DATABASE_URL"
    case Mongo => "export MONGO_URL"
  }

  /** Whether `q` is one of the quotings a shell assignment may carry: none, `"` or `'`. */
  predicate IsQuote(q: string) {
    q == [] || q == ['"'] || q == ['\'']
  }

  lemma DsnLineMatchesType(t: ServiceType, value: string)
    ensures DsnLineMatches(t, DsnLine(t, value))
  {
    var line := DsnLine(t, value);
    match t
    case Redis =>
      assert line[..17] == "export REDIS_URL=";
    case Postgres =>
      assert line == "export " + "DATABASE_URL=" + value;
      ContainsInfix("export ", "DATABASE_URL=", value);
    case Mysql =>
      assert line == "export " + "DATABASE_URL=" + value;
      ContainsInfix("export ", "DATABASE_URL=", value);
    case Mongo =>
      assert line == "export " + "MONGO_URL=" + value;
      ContainsInfix("export ", "MONGO_URL=", value);
  }

  /**
   * A connection string exported bare, in double quotes or in single quotes is
   * read back exactly, from whichever line of the file carries it first.
   */
  lemma DsnRoundTrip(t: ServiceType, q: string, url: string, rest: seq<string>)
    requires IsQuote(q) && IsStripped(url) && NoQuoteEnds(url)
    ensures DsnOf(t, [DsnLine(t, q + url + q)] + rest) == url
  {
    var line := DsnLine(t, q + url + q);
    DsnLineMatchesType(t, q + url + q);
    assert line == DsnKey(t) + ['='] + (q + url + q);
    SplitOnceConcat(DsnKey(t), '=', q + url + q);
    assert ([line] + rest)[0] == line;
    QuotedValue(q, url);
  }

  /** Stripping whitespace, then `"`, then `'` removes exactly one quoting. */
  lemma QuotedValue(q: string, url: string)
    requires IsQuote(q) && IsStripped(url) && NoQuoteEnds(url)
    ensures StripChar(StripChar(Strip(q + url + q), '"'), '\'') == url
  {
    if q == [] {
      assert q + url + q == url;
      StripStripped(url);
      StripCharNone(url, '"');
      StripCharNone(url, '\'');
    } else if q == ['"'] {
      DoubleQuotedValue(url);
    } else {
      SingleQuotedValue(url);
    }
  }

  /** Neither end of `url` is a quote character. */
  predicate NoQuoteEnds(url: string) {
    url == [] || (url[0] != '"' && url[0] != '\'' && url[|url| - 1] != '"' && url[|url| - 1] != '\'')
  }

  lemma DoubleQuotedValue(url: string)
    requires NoQuoteEnds(url)
    ensures StripChar(StripChar(Strip(['"'] + url + ['"']), '"'), '\'') == url
  {
    var w := ['"'] + url + ['"'];
    assert w[0] == '"' && w[|w| - 1] == '"';
    StripStripped(w);
    StripCharOnce(url, '"');
    StripCharNone(url, '\'');
  }

  lemma SingleQuotedValue(url: string)
    requires NoQuoteEnds(url)
    ensures StripChar(StripChar(Strip(['\''] + url + ['\'']), '"'), '\'') == url
  {
    var w := ['\''] + url + ['\''];
    assert w[0] == '\'' && w[|w| - 1] == '\'';
    StripStripped(w);
    StripCharNone(w, '"');
    StripCharOnce(url, '\'');
  }

  // ------------------------------------------------------------ linked apps

  /** The test the source makes: the qualified container name or the bare service name occurs. */
  predicate MentionsService(t: ServiceType, name: string, content: string) {
    Contains(content, "dokku." + TypeName(t) + "." + name) || Contains(content, name)
  }

  /** The qualified-name test adds nothing: an app is linked iff its ENV mentions the name. */
  lemma MentionsServiceIffName(t: ServiceType, name: string, content: string)
    ensures MentionsService(t, name, content) <==> Contains(content, name)
  {
    if Contains(content, "dokku." + TypeName(t) + "." + name) {
      ContainsSuffix(content, "dokku." + TypeName(t) + ".", name);
    }
  }

  /** Whether an entry of `/home/dokku` is an application linked to the service. */
  predicate IsLinked(t: ServiceType, name: string, e: HomeEntry) {
    IsAppDirName(e.name) && e.env.Some? && MentionsService(t, name, e.env.value)
  }

  /** `_get_service_links` over the entries of the home listing, in listing order. */
  function LinkedFrom(t: ServiceType, name: string, entries: seq<HomeEntry>): (r: seq<string>)
    ensures |r| <= |entries|
  {
    if entries == [] then []
    else
      var rest := LinkedFrom(t, name, entries[1..]);
      if IsLinked(t, name, entries[0]) then [entries[0].name] + rest else rest
  }

  /** A single entry contributes its name exactly when it is linked. */
  lemma LinkedFromOne(t: ServiceType, name: string, e: HomeEntry)
    ensures LinkedFrom(t, name, [e]) == if IsLinked(t, name, e) then [e.name] else []
  {
    assert [e][1..] == [];
  }

  /** Scanning the listing part by part keeps the parts' order: the result follows the listing. */
  lemma {:induction false} LinkedFromConcat(t: ServiceType, name: string, a: seq<HomeEntry>, b: seq<HomeEntry>)
    ensures LinkedFrom(t, name, a + b) == LinkedFrom(t, name, a) + LinkedFrom(t, name, b)
  {
    if a != [] {
      DropHead(a, b);
      LinkedFromConcat(t, name, a[1..], b);
      AppendAssoc(if IsLinked(t, name, a[0]) then [a[0].name] else [], LinkedFrom(t, name, a[1..]), LinkedFrom(t, name, b));
    } else {
      assert a + b == b;
    }
  }

  /** The applications linked to a service; a home directory that cannot be listed gives none. */
  function LinkedApps(t: ServiceType, name: string, home: HomeListing): seq<string> {
    match home
    case None => []
    case Some(entries) => LinkedFrom(t, name, entries)
  }

  /** What the linking test amounts to: an application directory whose readable ENV mentions `name`. */
  predicate MentionsName(name: string, e: HomeEntry) {
    IsAppDirName(e.name) && e.env.Some? && Contains(e.env.value, name)
  }

  lemma IsLinkedIffMentions(t: ServiceType, name: string, e: HomeEntry)
    ensures IsLinked(t, name, e) <==> MentionsName(name, e)
  {
    if e.env.Some? {
      MentionsServiceIffName(t, name, e.env.value);
    }
  }

  /**
   * An application is listed iff it is an application directory whose ENV
   * file can be read and mentions the service's name.
   */
  lemma {:induction false} LinkedFromMembers(t: ServiceType, name: string, entries: seq<HomeEntry>)
    ensures forall e :: e in entries && MentionsName(name, e) ==> e.name in LinkedFrom(t, name, entries)
    ensures forall a :: a in LinkedFrom(t, name, entries) ==>
      exists e :: e in entries && e.name == a && MentionsName(name, e)
  {
    if entries != [] {
      var rest := entries[1..];
      LinkedFromMembers(t, name, rest);
      IsLinkedIffMentions(t, name, entries[0]);
      assert forall e :: e in entries ==> e == entries[0] || e in rest;
      forall a | a in LinkedFrom(t, name, entries)
        ensures exists e :: e in entries && e.name == a && MentionsName(name, e)
      {
        if a !in LinkedFrom(t, name, rest) {
          assert entries[0].name == a && MentionsName(name, entries[0]);
        } else {
          var e :| e in rest && e.name == a && MentionsName(name, e);
          assert e in entries;
        }
      }
    }
  }

  /** `_get_service_links`: the loop over the home listing appending each linked application. */
  method GetServiceLinks(t: ServiceType, name: string, home: HomeListing) returns (linked: seq<string>)
    ensures linked == LinkedApps(t, name, home)
  {
    linked := [];
    if home.None? {
      return;
    }
    var entries := home.value;
    var i := 0;
    while i < |entries|
      invariant 0 <= i <= |entries|
      invariant linked + LinkedFrom(t, name, entries[i..]) == LinkedFrom(t, name, entries)
    {
      var e := entries[i];
      LinkedFromAt(t, name, entries, i);
      if IsAppDirName(e.name) && e.env.Some? && MentionsService(t, name, e.env.value) {
        AppendAssoc(linked, [e.name], LinkedFrom(t, name, entries[i + 1..]));
        linked := linked + [e.name];
      }
      i := i + 1;
    }
    assert entries[|entries|..] == [];
  }

  /** The linked applications from entry `i` on, by whether entry `i` is linked. */
  lemma LinkedFromAt(t: ServiceType, name: string, entries: seq<HomeEntry>, i: nat)
    requires i < |entries|
    ensures IsLinked(t, name, entries[i]) ==>
      LinkedFrom(t, name, entries[i..]) == [entries[i].name] + LinkedFrom(t, name, entries[i + 1..])
    ensures !IsLinked(t, name, entries[i]) ==>
      LinkedFrom(t, name, entries[i..]) == LinkedFrom(t, name, entries[i + 1..])
  {
    assert entries[i..][0] == entries[i] && entries[i..][1..] == entries[i + 1..];
  }

  // ------------------------------------------------------------ service listing

  /**
   * One name in the listing of `/var/lib/dokku/services/<type>`. `isDir` says
   * whether it is a directory; `inspect` is docker's output for the service's
   * container, `None` when docker could not be started; `env` is the text of
   * the service's ENV file, `None` when it is missing or unreadable.
   */
  datatype ServiceEntry = ServiceEntry(name: string, isDir: bool, inspect: Option<string>, env: Option<string>)

  /** Hidden names and non-directories are not services. */
  predicate IsSkipped(e: ServiceEntry) {
    StartsWith(e.name, ".") || !e.isDir
  }

  /** The record shown for one service directory. */
  function ServiceOf(t: ServiceType, e: ServiceEntry, home: HomeListing): (s: Service)
    requires e.inspect.Some?
    ensures s.name == e.name && s.kind == TypeName(t)
    ensures s.status == "running" || s.status == "stopped"
  {
    var path := ServicePath(t, e.name);
    Service(e.name, TypeName(t), InspectVersion(t, e.inspect.value), InspectStatus(e.inspect.value),
      EnvDsn(t, e.env), LinkedApps(t, e.name, home), path + "/config", path + "/data")
  }

  /** The configuration and data directories are distinct subdirectories of the service's directory. */
  lemma ServiceDirs(t: ServiceType, e: ServiceEntry, home: HomeListing)
    requires e.inspect.Some?
    ensures StartsWith(ServiceOf(t, e, home).config_dir, ServicePath(t, e.name) + "/")
    ensures StartsWith(ServiceOf(t, e, home).data_dir, ServicePath(t, e.name) + "/")
    ensures ServiceOf(t, e, home).config_dir != ServiceOf(t, e, home).data_dir
  {
    var path := ServicePath(t, e.name);
    var c := path + "/config";
    var d := path + "/data";
    assert c == (path + "/") + "config" && d == (path + "/") + "data";
    assert c[..|path| + 1] == path + "/" && d[..|path| + 1] == path + "/";
    assert c[|path| + 1] == 'c' && d[|path| + 1] == 'd';
  }

  /**
   * The loop of `_get_<type>_services`: skipped names contribute nothing, and
   * when docker cannot be started the error ends the loop, keeping the
   * services found so far.
   */
  function ServicesFrom(t: ServiceType, entries: seq<ServiceEntry>, home: HomeListing): seq<Service> {
    if entries == [] then []
    else if IsSkipped(entries[0]) then ServicesFrom(t, entries[1..], home)
    else if entries[0].inspect.None? then []
    else [ServiceOf(t, entries[0], home)] + ServicesFrom(t, entries[1..], home)
  }

  /** All services of one type; a missing or unlistable service directory gives none. */
  function ServicesOf(t: ServiceType, root: Option<seq<ServiceEntry>>, home: HomeListing): seq<Service> {
    match root
    case None => []
    case Some(entries) => ServicesFrom(t, entries, home)
  }

  /** `_get_<type>_services` */
  method GetServices(t: ServiceType, root: Option<seq<ServiceEntry>>, home: HomeListing)
    returns (services: seq<Service>)
    ensures services == ServicesOf(t, root, home)
  {
    services := [];
    if root.None? {
      return;
    }
    var entries := root.value;
    var i := 0;
    assert entries[i..] == entries;
    while i < |entries|
      invariant 0 <= i <= |entries|
      invariant services + ServicesFrom(t, entries[i..], home) == ServicesFrom(t, entries, home)
    {
      var e := entries[i];
      if StartsWith(e.name, ".") || !e.isDir {
        ServicesFromSkip(t, entries, i, home);
        i := i + 1;
        continue;
      }
      if e.inspect.None? {
        ServicesFromStop(t, entries, i, home, services);
        return;
      }
      var s := ReadService(t, e, home);
      ServicesFromRead(t, entries, i, home, services);
      services := services + [s];
      i := i + 1;
    }
    assert entries[|entries|..] == [];
  }

  /** The services from entry `i` on, by what entry `i` is. */
  lemma ServicesFromAt(t: ServiceType, entries: seq<ServiceEntry>, i: nat, home: HomeListing)
    requires i < |entries|
    ensures var e := entries[i];
      ServicesFrom(t, entries[i..], home)
      == if IsSkipped(e) then ServicesFrom(t, entries[i + 1..], home)
         else if e.inspect.None? then []
         else [ServiceOf(t, e, home)] + ServicesFrom(t, entries[i + 1..], home)
  {
    assert entries[i..][0] == entries[i] && entries[i..][1..] == entries[i + 1..];
  }

  /** A skipped entry adds nothing. */
  lemma ServicesFromSkip(t: ServiceType, entries: seq<ServiceEntry>, i: nat, home: HomeListing)
    requires i < |entries| && IsSkipped(entries[i])
    ensures ServicesFrom(t, entries[i..], home) == ServicesFrom(t, entries[i + 1..], home)
  {
    ServicesFromAt(t, entries, i, home);
  }

  /** A failing docker call at entry `i` ends the listing with the services read before it. */
  lemma ServicesFromStop(t: ServiceType, entries: seq<ServiceEntry>, i: nat, home: HomeListing, before: seq<Service>)
    requires i < |entries| && !IsSkipped(entries[i]) && entries[i].inspect.None?
    ensures before + ServicesFrom(t, entries[i..], home) == before
  {
    ServicesFromAt(t, entries, i, home);
    assert before + [] == before;
  }

  /** A service read at entry `i` goes after the services read before it. */
  lemma ServicesFromRead(t: ServiceType, entries: seq<ServiceEntry>, i: nat, home: HomeListing, before: seq<Service>)
    requires i < |entries| && !IsSkipped(entries[i]) && entries[i].inspect.Some?
    ensures before + ServicesFrom(t, entries[i..], home)
      == before + [ServiceOf(t, entries[i], home)] + ServicesFrom(t, entries[i + 1..], home)
  {
    ServicesFromAt(t, entries, i, home);
    AppendAssoc(before, [ServiceOf(t, entries[i], home)], ServicesFrom(t, entries[i + 1..], home));
  }

  /** The body of the listing loop for one service directory. */
  method ReadService(t: ServiceType, e: ServiceEntry, home: HomeListing) returns (s: Service)
    requires e.inspect.Some?
    ensures s == ServiceOf(t, e, home)
  {
    var dsn := "";
    if e.env.Some? {
      dsn := ScanDsn(t, FileLines(e.env.value));
    }
    var linked := GetServiceLinks(t, e.name, home);
    var path := ServicePath(t, e.name);
    s := Service(e.name, TypeName(t), InspectVersion(t, e.inspect.value), InspectStatus(e.inspect.value),
      dsn, linked, path + "/config", path + "/data");
  }

  /** Every service shown is of the listed type and comes from a visible directory of the listing. */
  lemma {:induction false} ServicesFromVisible(t: ServiceType, entries: seq<ServiceEntry>, home: HomeListing)
    ensures |ServicesFrom(t, entries, home)| <= |entries|
    ensures forall s :: s in ServicesFrom(t, entries, home) ==>
      s.kind == TypeName(t) && exists e :: e in entries && e.name == s.name && !IsSkipped(e)
  {
    if entries != [] {
      ServicesFromVisible(t, entries[1..], home);
      forall s | s in ServicesFrom(t, entries[1..], home)
        ensures exists e :: e in entries && e.name == s.name && !IsSkipped(e)
      {
        var e :| e in entries[1..] && e.name == s.name && !IsSkipped(e);
        assert e in entries;
      }
    }
  }

  /** Entries before a docker failure are listed as if the listing ended there. */
  lemma {:induction false} ServicesStopAtFailure(t: ServiceType, entries: seq<ServiceEntry>, home: HomeListing, k: nat)
    requires k < |entries| && !IsSkipped(entries[k]) && entries[k].inspect.None?
    ensures ServicesFrom(t, entries, home) == ServicesFrom(t, entries[..k], home)
  {
    if k == 0 {
      assert entries[..0] == [];
    } else {
      ServicesStopAtFailure(t, entries[1..], home, k - 1);
      assert entries[..k][0] == entries[0];
      assert entries[1..][..k - 1] == entries[..k][1..];
    }
  }

  /** Without docker failures, every visible directory gives exactly one service, in order. */
  lemma {:induction false} ServicesFromComplete(t: ServiceType, entries: seq<ServiceEntry>, home: HomeListing)
    requires forall k :: 0 <= k < |entries| ==> entries[k].inspect.Some?
    ensures |ServicesFrom(t, entries, home)| == |VisibleNames(entries)|
    ensures forall k :: 0 <= k < |VisibleNames(entries)| ==> ServicesFrom(t, entries, home)[k].name == VisibleNames(entries)[k]
  {
    if entries != [] {
      var e, rest := entries[0], entries[1..];
      assert forall k :: 0 <= k < |rest| ==> rest[k].inspect.Some? by {
        assert forall k :: 0 <= k < |rest| ==> rest[k] == entries[k + 1];
      }
      ServicesFromComplete(t, rest, home);
      if !IsSkipped(e) {
        var v, r := VisibleNames(rest), ServicesFrom(t, rest, home);
        assert e.inspect.Some?;
        ConsNames(ServiceOf(t, e, home), e.name, r, v);
      }
    }
  }

  lemma ConsNames(s: Service, name: string, r: seq<Service>, v: seq<string>)
    requires s.name == name && |r| == |v| && forall k :: 0 <= k < |v| ==> r[k].name == v[k]
    ensures |[s] + r| == |[name] + v|
    ensures forall k :: 0 <= k < |[name] + v| ==> ([s] + r)[k].name == ([name] + v)[k]
  {
  }

  /** The names that are neither hidden nor non-directories, in listing order. */
  function VisibleNames(entries: seq<ServiceEntry>): seq<string> {
    if entries == [] then []
    else if IsSkipped(entries[0]) then VisibleNames(entries[1..])
    else [entries[0].name] + VisibleNames(entries[1..])
  }

  /** The service roots of the four plugins. */
  datatype ServiceRoots = ServiceRoots(
    redis: Option<seq<ServiceEntry>>,
    postgres: Option<seq<ServiceEntry>>,
    mysql: Option<seq<ServiceEntry>>,
    mongo: Option<seq<ServiceEntry>>)

  /** `list_services`: redis, then postgres, then mysql, then mongo. */
  function AllServices(roots: ServiceRoots, home: HomeListing): seq<Service> {
    ServicesOf(Redis, roots.redis, home) + ServicesOf(Postgres, roots.postgres, home)
      + ServicesOf(Mysql, roots.mysql, home) + ServicesOf(Mongo, roots.mongo, home)
  }

  method ListServices(roots: ServiceRoots, home: HomeListing) returns (services: seq<Service>)
    ensures services == AllServices(roots, home)
  {
    var redis := GetServices(Redis, roots.redis, home);
    services := redis;
    var postgres := GetServices(Postgres, roots.postgres, home);
    services := services + postgres;
    var mysql := GetServices(Mysql, roots.mysql, home);
    services := services + mysql;
    var mongo := GetServices(Mongo, roots.mongo, home);
    services := services + mongo;
  }

  /** The rank of a service's type, from its `type` string. */
  function KindRank(kind: string): nat {
    if kind == "redis" then 0 else if kind == "postgres" then 1 else if kind == "mysql" then 2 else 3
  }

  lemma ServicesOfKind(t: ServiceType, root: Option<seq<ServiceEntry>>, home: HomeListing)
    ensures forall s :: s in ServicesOf(t, root, home) ==> KindRank(s.kind) == TypeRank(t)
  {
    if root.Some? {
      ServicesFromVisible(t, root.value, home);
    }
  }

  /** The combined listing is grouped by type, in the order redis, postgres, mysql, mongo. */
  lemma AllServicesGrouped(roots: ServiceRoots, home: HomeListing)
    ensures forall i, j :: 0 <= i < j < |AllServices(roots, home)| ==>
      KindRank(AllServices(roots, home)[i].kind) <= KindRank(AllServices(roots, home)[j].kind)
  {
    var r, p := ServicesOf(Redis, roots.redis, home), ServicesOf(Postgres, roots.postgres, home);
    var m, g := ServicesOf(Mysql, roots.mysql, home), ServicesOf(Mongo, roots.mongo, home);
    ServicesOfKind(Redis, roots.redis, home);
    ServicesOfKind(Postgres, roots.postgres, home);
    ServicesOfKind(Mysql, roots.mysql, home);
    ServicesOfKind(Mongo, roots.mongo, home);
    var all := AllServices(roots, home);
    assert all == r + p + m + g;
    forall k | 0 <= k < |all| ensures KindRank(all[k].kind) <= 3 && (
      var a := |r|;
      var b := a + |p|;
      var c := b + |m|;
      KindRank(all[k].kind) == (if k < a then 0 else if k < b then 1 else if k < c then 2 else 3))
    {
      PieceAt(r, p, m, g, k);
      if k < |r| {
        assert r[k] in r;
      } else if k < |r| + |p| {
        assert p[k - |r|] in p;
      } else if k < |r| + |p| + |m| {
        assert m[k - |r| - |p|] in m;
      } else {
        assert g[k - |r| - |p| - |m|] in g;
      }
    }
  }

  /** Where index `k` of four sequences laid end to end falls. */
  lemma PieceAt<T>(a: seq<T>, b: seq<T>, c: seq<T>, d: seq<T>, k: nat)
    requires k < |a + b + c + d|
    ensures k < |a| ==> (a + b + c + d)[k] == a[k]
    ensures |a| <= k < |a| + |b| ==> (a + b + c + d)[k] == b[k - |a|]
    ensures |a| + |b| <= k < |a| + |b| + |c| ==> (a + b + c + d)[k] == c[k - |a| - |b|]
    ensures |a| + |b| + |c| <= k ==> (a + b + c + d)[k] == d[k - |a| - |b| - |c|]
  {
  }
}
