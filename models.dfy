/**
 * The value records the dashboard builds from host output: applications and
 * their status, environment variables, datastore services, TLS certificates
 * and process scales, with the display rules derived from them.
 */
module Models {
  import opened Wrappers
  import opened PyStr

  /** Application status: a closed enumeration whose members carry string values. */
  datatype AppStatus = Running | Stopped | Crashed | Restarting | Starting | Stopping | Unknown

  const AllStatuses: seq<AppStatus> := [Running, Stopped, Crashed, Restarting, Starting, Stopping, Unknown]

  function StatusValue(s: AppStatus): string {
    match s
    case Running => "running"
    case Stopped => "stopped"
    case Crashed => "crashed"
    case Restarting => "restarting"
    case Starting => "starting"
    case Stopping => "stopping"
    case Unknown => "unknown"
  }

  /** `AppStatus(v)`: the member whose value is `v`; `None` is the ValueError case. */
  function StatusFromValue(v: string): (r: Option<AppStatus>)
    ensures r.Some? ==> StatusValue(r.value) == v
  {
    if v == "running" then Some(Running)
    else if v == "stopped" then Some(Stopped)
    else if v == "crashed" then Some(Crashed)
    else if v == "restarting" then Some(Restarting)
    else if v == "starting" then Some(Starting)
    else if v == "stopping" then Some(Stopping)
    else if v == "unknown" then Some(Unknown)
    else None
  }

  /** There are exactly seven statuses, and each is named by its own value. */
  lemma StatusesClosed()
    ensures |AllStatuses| == 7
    ensures forall s: AppStatus :: s in AllStatuses
    ensures forall s, t :: StatusValue(s) == StatusValue(t) ==> s == t
  {
    forall s: AppStatus ensures s in AllStatuses {
      var i := match s
        case Running => 0 case Stopped => 1 case Crashed => 2 case Restarting => 3
        case Starting => 4 case Stopping => 5 case Unknown => 6;
      assert AllStatuses[i] == s;
    }
    forall s, t | StatusValue(s) == StatusValue(t) ensures s == t {
      StatusValueRoundTrip(s);
      StatusValueRoundTrip(t);
    }
  }

  lemma StatusValueRoundTrip(s: AppStatus)
    ensures StatusFromValue(StatusValue(s)) == Some(s)
  {
  }

  /** An application as the dashboard shows it. */
  datatype App = App(
    name: string,
    status: AppStatus,
    container_count: int,
    domains: seq<string>,
    created_at: string,
    deploy_source: string,
    web_url: string)

  /** `App(name=name)`: every other field at its declared default. */
  function NewApp(name: string): (a: App)
    ensures a.name == name && a.status == Unknown && a.container_count == 0
    ensures a.domains == [] && a.created_at == "" && a.deploy_source == "" && a.web_url == ""
  {
    App(name, Unknown, 0, [], "", "", "")
  }

  /** The first domain, or `None` for an application without domains. */
  function PrimaryDomain(a: App): (r: Option<string>)
    ensures r.None? <==> a.domains == []
    ensures r.Some? ==> r.value == a.domains[0] && r.value in a.domains
  {
    if a.domains != [] then Some(a.domains[0]) else None
  }

  /** The placeholder shown in place of a hidden value (eight bullets). */
  const Mask: string := "\U{2022}\U{2022}\U{2022}\U{2022}\U{2022}\U{2022}\U{2022}\U{2022}"

  /** The placeholder that replaces the credentials of a connection string (seven bullets and `@`). */
  const CredentialMask: string := "\U{2022}\U{2022}\U{2022}\U{2022}\U{2022}\U{2022}\U{2022}@"

  const MaxShownValueLength := 50

  datatype EnvVar = EnvVar(key: string, value: string, is_sensitive: bool)

  /** A value is hidden when its key is sensitive or it is longer than 50 characters. */
  predicate IsMasked(e: EnvVar) {
    e.is_sensitive || |e.value| > MaxShownValueLength
  }

  function MaskedValue(e: EnvVar): (r: string)
    ensures IsMasked(e) ==> r == Mask
    ensures !IsMasked(e) ==> r == e.value
  {
    if e.is_sensitive || |e.value| > 50 then Mask else e.value
  }

  /** A hidden value is never partly shown: any two hidden variables display alike. */
  lemma MaskedValueHidesValue(e1: EnvVar, e2: EnvVar)
    requires IsMasked(e1) && IsMasked(e2)
    ensures MaskedValue(e1) == MaskedValue(e2) == Mask
  {
  }

  /** The display boundary is at 50 characters: 50 are shown, 51 are not. */
  lemma MaskedValueBoundary(key: string, v: string)
    requires |v| == 50 || |v| == 51
    ensures MaskedValue(EnvVar(key, v, false)) == (if |v| == 50 then v else Mask)
  {
  }

  /** A datastore service (redis, postgres, mysql or mongo). */
  datatype Service = Service(
    name: string,
    kind: string,
    version: string,
    status: string,
    dsn: string,
    linked_apps: seq<string>,
    config_dir: string,
    data_dir: string)

  function MaskedDsn(dsn: string): (r: string)
    ensures r == Mask || StartsWith(r, CredentialMask)
  {
    if ':' in dsn && '@' in dsn then
      var parts := Split(dsn, '@');
      if |parts| == 2 then CredentialMask + parts[1] else Mask
    else Mask
  }

  /** Splitting on `c` yields one more piece than there are `c`s. */
  lemma {:induction false} SplitCount(s: string, c: char)
    ensures |Split(s, c)| == multiset(s)[c] + 1
    decreases |s|
  {
    match IndexOf(s, c)
    case None =>
    case Some(i) =>
      assert s == s[..i] + [c] + s[i + 1..];
      assert multiset(s) == multiset(s[..i]) + multiset{c} + multiset(s[i + 1..]);
      SplitCount(s[i + 1..], c);
  }

  lemma SplitOneSeparator(u: string, c: char, h: string)
    requires c !in u && c !in h
    ensures Split(u + [c] + h, c) == [u, h]
  {
    SplitJoin([u, h], c);
    assert Join([c], [u, h]) == u + [c] + h;
  }

  /**
   * A connection string with a `:` and exactly one `@` shows only what
   * follows the `@`; every other connection string is hidden entirely.
   */
  lemma MaskedDsnShape(dsn: string)
    ensures ':' in dsn && multiset(dsn)['@'] == 1 ==>
      exists u, h :: dsn == u + "@" + h && '@' !in u && '@' !in h && MaskedDsn(dsn) == CredentialMask + h
    ensures !(':' in dsn && multiset(dsn)['@'] == 1) ==> MaskedDsn(dsn) == Mask
  {
    SplitCount(dsn, '@');
    if ':' in dsn && multiset(dsn)['@'] == 1 {
      var parts := Split(dsn, '@');
      assert '@' in dsn by {
        assert multiset(dsn)['@'] > 0;
      }
      var (u, h) := SplitOnce(dsn, '@').value;
      SplitOneSeparator(u, '@', h);
      assert dsn == u + "@" + h;
    }
  }

  /**
   * The credentials before the `@` never influence what is displayed, whether
   * the `:` the test needs sits in the credentials or in the host part.
   */
  lemma MaskedDsnHidesCredentials(u1: string, u2: string, h: string)
    requires '@' !in u1 && '@' !in u2 && '@' !in h
    requires (':' in u1 || ':' in h) && (':' in u2 || ':' in h)
    ensures MaskedDsn(u1 + "@" + h) == MaskedDsn(u2 + "@" + h) == CredentialMask + h
  {
    MaskedDsnOf(u1, h);
    MaskedDsnOf(u2, h);
  }

  lemma MaskedDsnOf(u: string, h: string)
    requires '@' !in u && '@' !in h && (':' in u || ':' in h)
    ensures MaskedDsn(u + "@" + h) == CredentialMask + h
  {
    var dsn := u + "@" + h;
    SplitOneSeparator(u, '@', h);
    assert dsn == u + ['@'] + h;
    assert dsn[|u|] == '@';
    assert ':' in dsn by {
      if ':' in u {
        var i :| 0 <= i < |u| && u[i] == ':';
        assert dsn[i] == ':';
      } else {
        var i :| 0 <= i < |h| && h[i] == ':';
        assert dsn[|u| + 1 + i] == ':';
      }
    }
  }

  /** A TLS certificate issued by the letsencrypt plugin. */
  datatype SSLCertificate = SSLCertificate(
    app_name: string,
    expiry_date: string,
    days_until_expiry: int,
    days_until_renewal: int,
    auto_renew: bool)

  /** The colour of a certificate's expiry badge, ordered from most to least urgent. */
  datatype Color = Red | Orange | Yellow | Green

  function ColorRank(c: Color): nat {
    match c
    case Red => 0
    case Orange => 1
    case Yellow => 2
    case Green => 3
  }

  function ColorName(c: Color): string {
    match c
    case Red => "red"
    case Orange => "orange"
    case Yellow => "yellow"
    case Green => "green"
  }

  function StatusColor(c: SSLCertificate): Color {
    if c.days_until_expiry > 60 then Green
    else if c.days_until_expiry > 30 then Yellow
    else if c.days_until_expiry > 7 then Orange
    else Red
  }

  function WithDays(d: int): SSLCertificate {
    SSLCertificate("", "", d, 0, true)
  }

  /** The colour bands: green above 60 days, yellow to 31, orange to 8, red at 7 and below. */
  lemma StatusColorBands(c: SSLCertificate)
    ensures StatusColor(c) == Green <==> c.days_until_expiry > 60
    ensures StatusColor(c) == Yellow <==> 30 < c.days_until_expiry <= 60
    ensures StatusColor(c) == Orange <==> 7 < c.days_until_expiry <= 30
    ensures StatusColor(c) == Red <==> c.days_until_expiry <= 7
    ensures StatusColor(c) == StatusColor(WithDays(c.days_until_expiry))
  {
  }

  /** More days until expiry never makes the badge more urgent. */
  lemma StatusColorMonotone(c1: SSLCertificate, c2: SSLCertificate)
    requires c1.days_until_expiry <= c2.days_until_expiry
    ensures ColorRank(StatusColor(c1)) <= ColorRank(StatusColor(c2))
  {
  }

  /** The boundary values of the colour bands. */
  lemma StatusColorBoundaries()
    ensures ColorName(StatusColor(WithDays(61))) == "green"
    ensures ColorName(StatusColor(WithDays(60))) == "yellow"
    ensures ColorName(StatusColor(WithDays(31))) == "yellow"
    ensures ColorName(StatusColor(WithDays(30))) == "orange"
    ensures ColorName(StatusColor(WithDays(8))) == "orange"
    ensures ColorName(StatusColor(WithDays(7))) == "red"
    ensures ColorName(StatusColor(WithDays(0))) == "red"
  {
  }

  /** A process type and its instance count. */
  datatype ProcessScale = ProcessScale(process_type: string, quantity: int)
}
