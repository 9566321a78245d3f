/**
 * The dokku user's home directory as the dashboard reads it: one entry per
 * name in the listing of `/home/dokku`, with what the dashboard looks up
 * beneath it. Application directories sit beside a few reserved names that
 * every scan of the directory skips.
 */
module Host {
  import opened Wrappers
  import opened PyStr

  /** Names in `/home/dokku` that are never application directories. */
  const ReservedNames: set<string> := {"ENV", "VHOST", "tls", "dokkurc"}

  /** The names a scan of `/home/dokku` treats as applications: not hidden, not reserved. */
  predicate IsAppDirName(name: string) {
    !StartsWith(name, ".") && name !in ReservedNames
  }

  /**
   * One name of the home listing. `env` is the text of `<name>/ENV` when that
   * file exists and can be read, and `letsencrypt` says whether
   * `<name>/letsencrypt` exists.
   */
  datatype HomeEntry = HomeEntry(name: string, env: Option<string>, letsencrypt: bool)

  /** A listing of the home directory; `None` when listing it fails. */
  type HomeListing = Option<seq<HomeEntry>>

  /** The application directories of a listing, in listing order. */
  function AppDirs(entries: seq<HomeEntry>): (r: seq<HomeEntry>)
    ensures |r| <= |entries|
    ensures forall k :: 0 <= k < |r| ==> IsAppDirName(r[k].name) && r[k] in entries
    ensures forall e :: e in entries && IsAppDirName(e.name) ==> e in r
  {
    if entries == [] then []
    else
      var rest := AppDirs(entries[1..]);
      if IsAppDirName(entries[0].name) then [entries[0]] + rest else rest
  }

  /** A single entry is kept exactly when its name is an application directory's. */
  lemma AppDirsOne(e: HomeEntry)
    ensures AppDirs([e]) == if IsAppDirName(e.name) then [e] else []
  {
    assert [e][1..] == [];
  }

  /** Scanning a listing part by part keeps the parts' order. */
  lemma {:induction false} AppDirsConcat(a: seq<HomeEntry>, b: seq<HomeEntry>)
    ensures AppDirs(a + b) == AppDirs(a) + AppDirs(b)
  {
    if a != [] {
      DropHead(a, b);
      AppDirsConcat(a[1..], b);
      AppendAssoc(if IsAppDirName(a[0].name) then [a[0]] else [], AppDirs(a[1..]), AppDirs(b));
    } else {
      assert a + b == b;
    }
  }
}
