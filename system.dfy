/**
 * The system page: the second line of `df -h /` and of `free -h` split into
 * fields, counts of the non-empty lines docker prints for containers, images
 * and volumes, and the number of application directories in `/home/dokku`.
 *
 * Each command's output is a parameter.
 */
module System {
  import opened Wrappers
  import opened PyStr
  import opened Models
  import opened Host
  import Services
  import Plugins

  /** The whitespace-separated fields of the second line of the trimmed output, or none. */
  function SecondLineFields(stdout: string): (r: seq<string>)
    ensures forall k :: 0 <= k < |r| ==> IsToken(r[k])
    ensures |StrippedLines(stdout)| <= 1 ==> r == []
  {
    var lines := StrippedLines(stdout);
    if |lines| > 1 then SplitWs(lines[1]) else []
  }

  /** Field `i`, or "N/A" when the line has no such field. */
  function FieldOr(fields: seq<string>, i: nat): string {
    if |fields| > i then fields[i] else "N/A"
  }

  /** The `disk` entry: size, used, available and percentage of the root file system. */
  datatype DiskInfo = DiskInfo(size: string, used: string, available: string, percent: string)

  /** The `memory` entry: total, used and free memory. */
  datatype MemoryInfo = MemoryInfo(total: string, used: string, free: string)

  function DiskOf(dfOutput: string): DiskInfo {
    var f := SecondLineFields(dfOutput);
    DiskInfo(FieldOr(f, 1), FieldOr(f, 2), FieldOr(f, 3), FieldOr(f, 4))
  }

  function MemoryOf(freeOutput: string): MemoryInfo {
    var f := SecondLineFields(freeOutput);
    MemoryInfo(FieldOr(f, 1), FieldOr(f, 2), FieldOr(f, 3))
  }

  /** The output of a command that prints a header line and one row of fields. */
  function HeaderAndRow(header: string, row: seq<string>): string {
    header + "\n" + Join(" ", row) + "\n"
  }

  /** The row printed under a header is read back as the second line's fields. */
  lemma SecondLineRoundTrip(header: string, row: seq<string>)
    requires header != [] && !IsSpace(header[0]) && '\n' !in header
    requires |row| >= 1 && forall k :: 0 <= k < |row| ==> IsToken(row[k])
    ensures SecondLineFields(HeaderAndRow(header, row)) == row
  {
    var j := Join(" ", row);
    JoinTokensStripped(row);
    JoinNoChar(" ", row, '\n');
    var body := header + "\n" + j;
    assert body == header + ['\n'] + j;
    assert body[0] == header[0] && body[|body| - 1] == j[|j| - 1];
    assert IsSpace('\n');
    StripBeforeSpaces(body, "\n");
    assert HeaderAndRow(header, row) == body + "\n";
    SplitOneSeparator(header, '\n', j);
    SplitWsJoin(row);
  }

  /** Each disk figure is the row's field at its column, or "N/A" past the row's end. */
  lemma DiskRoundTrip(header: string, row: seq<string>)
    requires header != [] && !IsSpace(header[0]) && '\n' !in header
    requires |row| >= 1 && forall k :: 0 <= k < |row| ==> IsToken(row[k])
    ensures DiskOf(HeaderAndRow(header, row)) == DiskInfo(
      if |row| > 1 then row[1] else "N/A", if |row| > 2 then row[2] else "N/A",
      if |row| > 3 then row[3] else "N/A", if |row| > 4 then row[4] else "N/A")
  {
    SecondLineRoundTrip(header, row);
  }

  /** Each memory figure is the row's field at its column, or "N/A" past the row's end. */
  lemma MemoryRoundTrip(header: string, row: seq<string>)
    requires header != [] && !IsSpace(header[0]) && '\n' !in header
    requires |row| >= 1 && forall k :: 0 <= k < |row| ==> IsToken(row[k])
    ensures MemoryOf(HeaderAndRow(header, row)) == MemoryInfo(
      if |row| > 1 then row[1] else "N/A", if |row| > 2 then row[2] else "N/A",
      if |row| > 3 then row[3] else "N/A")
  {
    SecondLineRoundTrip(header, row);
  }

  /** Output of a single line (or none) shows every figure as "N/A". */
  lemma SingleLineOutput(stdout: string)
    requires '\n' !in Strip(stdout)
    ensures DiskOf(stdout) == DiskInfo("N/A", "N/A", "N/A", "N/A")
    ensures MemoryOf(stdout) == MemoryInfo("N/A", "N/A", "N/A")
  {
    assert IndexOf(Strip(stdout), '\n').None?;
  }

  /** `len([l for l in lines if l])` */
  function NonEmptyCount(lines: seq<string>): (n: nat)
    ensures n <= |lines|
  {
    if lines == [] then 0 else (if lines[0] != [] then 1 else 0) + NonEmptyCount(lines[1..])
  }

  /** The number of non-empty lines of the trimmed output. */
  function LineCount(stdout: string): nat {
    NonEmptyCount(StrippedLines(stdout))
  }

  lemma {:induction false} NonEmptyCountAll(lines: seq<string>)
    requires forall k :: 0 <= k < |lines| ==> lines[k] != []
    ensures NonEmptyCount(lines) == |lines|
  {
    if lines != [] {
      NonEmptyCountAll(lines[1..]);
    }
  }

  /** Output of only whitespace counts nothing. */
  lemma LineCountBlank(stdout: string)
    requires AllSpace(stdout)
    ensures LineCount(stdout) == 0
  {
    LStripEmpty(stdout);
    assert Strip(stdout) == [];
    assert StrippedLines(stdout) == [[]];
  }

  /** One identifier per line, as `docker ps -aq` prints them, counts the identifiers. */
  lemma LineCountRoundTrip(ids: seq<string>)
    requires forall k :: 0 <= k < |ids| ==> IsToken(ids[k])
    ensures LineCount(Join("\n", ids) + "\n") == |ids|
  {
    if ids == [] {
      assert Join("\n", ids) + "\n" == "\n";
      assert AllSpace("\n") by { assert IsSpace('\n'); }
      LineCountBlank("\n");
    } else {
      IdLines(ids);
      NonEmptyCountAll(ids);
    }
  }

  lemma IdLines(ids: seq<string>)
    requires |ids| >= 1 && forall k :: 0 <= k < |ids| ==> IsToken(ids[k])
    ensures StrippedLines(Join("\n", ids) + "\n") == ids
  {
    var j := Join("\n", ids);
    assert Strip(j + "\n") == j by {
      assert IsStripped(j) by {
        assert forall k :: 0 <= k < |ids| ==> ids[k] != [];
        JoinStripped("\n", ids);
      }
      assert AllSpace("\n") by { assert IsSpace('\n'); }
      StripBeforeSpaces(j, "\n");
    }
    assert forall k :: 0 <= k < |ids| ==> '\n' !in ids[k] by {
      forall k | 0 <= k < |ids| ensures '\n' !in ids[k] {
        assert IsToken(ids[k]) && IsSpace('\n');
      }
    }
    SplitJoin(ids, '\n');
  }

  /** The number of applications: the application directories of the home listing, 0 when it fails. */
  function AppCount(home: HomeListing): nat {
    match home
    case None => 0
    case Some(entries) => |AppDirs(entries)|
  }

  /** No service has more linked applications than the host has applications. */
  lemma {:induction false} LinkedWithinAppCount(t: Services.ServiceType, name: string, home: HomeListing)
    ensures |Services.LinkedApps(t, name, home)| <= AppCount(home)
  {
    if home.Some? {
      LinkedWithinAppDirs(t, name, home.value);
    }
  }

  lemma {:induction false} LinkedWithinAppDirs(t: Services.ServiceType, name: string, entries: seq<HomeEntry>)
    ensures |Services.LinkedFrom(t, name, entries)| <= |AppDirs(entries)|
  {
    if entries != [] {
      LinkedWithinAppDirs(t, name, entries[1..]);
    }
  }

  /** No more applications hold a letsencrypt directory than the host has applications. */
  lemma {:induction false} LetsencryptWithinAppDirs(entries: seq<HomeEntry>)
    ensures |Plugins.LetsencryptFrom(entries)| <= |AppDirs(entries)|
  {
    if entries != [] {
      LetsencryptWithinAppDirs(entries[1..]);
    }
  }

  /** The figures of the system page. */
  datatype SystemInfo = SystemInfo(
    dokku_version: string,
    docker_version: string,
    disk: DiskInfo,
    memory: MemoryInfo,
    apps: nat,
    containers: nat,
    images: nat,
    volumes: nat)

  /** `system_info`: every figure from its command's output. */
  function SystemInfoOf(
    versionOutput: string, dfOutput: string, freeOutput: string, dockerInfoOutput: string,
    psOutput: string, imagesOutput: string, volumesOutput: string, home: HomeListing): (r: SystemInfo)
    ensures IsStripped(r.dokku_version) && IsStripped(r.docker_version)
    ensures r.apps <= (if home.Some? then |home.value| else 0)
  {
    SystemInfo(Strip(versionOutput), Strip(dockerInfoOutput), DiskOf(dfOutput), MemoryOf(freeOutput),
      AppCount(home), LineCount(psOutput), LineCount(imagesOutput), LineCount(volumesOutput))
  }
}
