# dokku-dashboard text layer, modelled in Dafny

The dokku dashboard is a web front end to a Dokku host. Between the host
tools (`dokku`, `docker`, `df`, `free`, the files under `/home/dokku` and
`/var/lib/dokku/services`) and the HTML templates sits a layer that turns raw
text into records and builds command lines and markup. This project models
that layer and proves what it promises.

- `pystr.dfy`: the Python string operations the dashboard relies on. It holds
  `strip`, `split(sep)`, `split()`, `split(maxsplit=2)`, `find`/`in`,
  `replace`, ASCII `lower` and `int()`. It also holds module `Wrappers`
  (`Option`).
- `shell.dfy`: word splitting and quote removal as in IEEE Std 1003.1-2017
  Shell Command Language, sections 2.2.1 (escape character), 2.2.2 (single-quotes), 2.2.3
  (double-quotes) and 2.3 (token recognition), for plain words and quotes.
  It is the partner the `config:set` escaping is proved against.
- `models.dfy`: the records of `app/dokku/models.py` and their derived
  properties (masking, primary domain, certificate colour).
- `client.dfy`: the report parsers and command composition of
  `app/dokku/client.py`. Each scan that loops in the source is a method
  proved equal to a specification function. The function's meaning is
  stated in lemmas.
- `ssl.dfy`: the `letsencrypt:list` parser and the stable sort by expiry, as
  an in-place insertion sort on an array.
- `logs.dfy`: HTML escaping of log lines, a decoder that inverts it, and the
  line-level classifier.
- `host.dfy`: the `/home/dokku` listing shared by the service, plugin and
  system pages, with the hidden and reserved-name filter.
- `services.dfy`: service discovery. It covers `docker inspect` output,
  version prefixes, DSN lines of the ENV file, linked applications and the
  four service roots.
- `plugins.dfy`: the `plugin:list` parser and the per-plugin application
  lists.
- `system.dfy`: the `df`/`free` token extraction, line counts and the
  application count.

Host interactions are parameters:
- The stdout of a command is a `string`.
- A directory listing is an `Option` of entries. `None` stands for a
  missing directory or an `OSError`.
- A file is `Option<string>`. `None` stands for a missing or unreadable
  file.
- The output of `dokku <plugin>:list` is a function from plugin name to
  stdout.

## Model

| member | source | states |
|---|---|---|
| Client.CommandOutput | app/dokku/client.py:38 | `run` returns stdout when non-empty, else stderr; the result is empty exactly when both are |
| Client.StrippedNonBlank | app/dokku/client.py:45 | every kept line is non-empty and stripped, and there are no more of them than input lines |
| Client.StrippedNonBlankKeeps | app/dokku/client.py:45 | lines that are already stripped and non-empty are all kept, in order |
| Client.StrippedNonBlankOne | app/dokku/client.py:45 | one line is kept, stripped, exactly when it is not blank |
| Client.StrippedNonBlankConcat | app/dokku/client.py:45 | the names of two blocks of lines are those of the first block followed by those of the second, so together with `StrippedNonBlankOne` the result is the stripped non-blank lines in report order |
| Client.AppsList | app/dokku/client.py:40-45 | `apps_list`: the stripped non-blank lines after the header of the stripped output; its meaning is stated by `StrippedNonBlankOne`, `StrippedNonBlankConcat` and `AppsListRoundTrip` |
| Client.AppsListRoundTrip | app/dokku/client.py:43-45 | a header line followed by stripped application names reads back as exactly those names in order: the header is dropped |
| Client.StatusOf | app/dokku/client.py:47-57 | `app_status`: the if-chain on the lower-cased `ps:report` output; its meaning is stated by `StatusPriority`, `StatusCaseInsensitive` and `StatusRunningDominates` |
| Client.StatusPriority | app/dokku/client.py:51-57 | on the lower-cased output, "running" wins. Failing that "stopped" wins, failing that "crashed" or "exited", failing that unknown. Each status holds iff its condition holds, and restarting/starting/stopping never occur |
| Client.StatusCaseInsensitive | app/dokku/client.py:51-57 | the status depends only on the lower-cased output |
| Client.StatusRunningDominates | app/dokku/client.py:51-52 | "running" anywhere in a report makes it RUNNING, whatever else the report says |
| Client.LowerIdempotent | app/dokku/client.py:51 | lower-casing twice is lower-casing once |
| Client.QuickStatus | app/dokku/client.py:105-110 | the status test of `get_all_apps`; `QuickStatusAgrees` states it is `app_status` with CRASHED read as UNKNOWN |
| Client.QuickStatusAgrees | app/dokku/client.py:105-110 | the quick status of `get_all_apps` is `app_status` with CRASHED read as UNKNOWN |
| Client.DomainsOf | app/dokku/client.py:179-189 | `_parse_domains` as a specification function; its meaning is stated by `DomainsLastMarkerLine` |
| Client.ParseDomains | app/dokku/client.py:179-189 | the loop that reassigns `domains` computes the specification `DomainsOf` |
| Client.DomainsLastMarkerLine | app/dokku/client.py:179-189 | no "Domains app vhosts:" line gives []. Otherwise the result is the whitespace split of the text after the first colon of the LAST such line, and no domain is empty |
| Client.CountOfLine | app/dokku/client.py:194-197 | a line yields a count only if it contains "Processes:" or "Running:" |
| Client.ContainerCountOf | app/dokku/client.py:191-198 | `_parse_container_count` as a specification function; its meaning is stated by `ContainerCountFirstMatch` and `ProcessesLineCount` |
| Client.ParseContainerCount | app/dokku/client.py:191-198 | the early-return scan computes the specification `ContainerCountOf`, a natural number |
| Client.ContainerCountFirstMatch | app/dokku/client.py:191-198 | the count is that of the first line with a marker and a digit run, or 0 when there is none |
| Client.ProcessesLineCount | app/dokku/client.py:194-197 | a "Processes:" line followed by the decimal form of n yields n |
| Client.DeploySourceOf | app/dokku/client.py:200-207 | the deploy source is "unknown" or a stripped string |
| Client.ParseDeploySource | app/dokku/client.py:200-207 | the early-return scan computes the specification `DeploySourceOf` |
| Client.DeploySourceFirstLine | app/dokku/client.py:200-207 | the result is the stripped text after the first colon of the FIRST "Git deploy branch:" line, or "unknown" when there is none |
| Client.DeployBranchRoundTrip | app/dokku/client.py:203-206 | a report line naming a branch yields exactly that branch |
| Client.ConfigEntry | app/dokku/client.py:215-229 | a line yields a variable iff it has a colon, does not start with "=", and its trimmed key does not start with "====". Key and value are the trimmed text before and after the first colon, and the key alone sets the sensitivity |
| Client.ConfigOf | app/dokku/client.py:209-231 | `_parse_config` as a specification function; its meaning is stated by `ConfigOfConcat`, `ConfigEntriesShape` and `ConfigShowRoundTrip` |
| Client.ParseConfig | app/dokku/client.py:209-231 | the appending loop computes the specification `ConfigOf` |
| Client.ConfigOfConcat | app/dokku/client.py:214-229 | parsing is line by line: the variables of two blocks are those of each, in order |
| Client.ConfigEntriesShape | app/dokku/client.py:214-229 | at most one variable per line; keys and values are trimmed, keys hold no colon and never start with "====", and the flag matches the key |
| Client.ConfigEntryRoundTrip | app/dokku/client.py:215-229 | a `KEY:  value` line reads back as exactly that key and value |
| Client.ConfigHeaderSkipped | app/dokku/client.py:215 | a line starting with "=" yields nothing |
| Client.SensitiveIgnoresCase | app/dokku/client.py:227 | sensitivity is tested on the lower-cased key |
| Client.ShowReport | app/dokku/client.py:209-231 | a `config:show` report is its header plus one line per variable |
| Client.ShowableEntry | app/dokku/client.py:215-229 | a displayable variable printed as `KEY: value` reads back as itself |
| Client.ConfigOfSnoc | app/dokku/client.py:214-229 | one more line adds at most its own variable at the end |
| Client.ConfigShowRoundTrip | app/dokku/client.py:209-231 | a whole report of displayable variables reads back as the same list, in order |
| Client.WebUrl | app/dokku/client.py:82 | the URL is empty exactly when there are no domains |
| Client.WebUrlPrimaryDomain | app/dokku/client.py:82 | the URL is "https://" plus the primary domain, or "" when there is none |
| Client.WebAddressOfLine | app/dokku/client.py:115-118 | a "Ps web address:" line yields a non-empty, stripped address |
| Client.WebAddressOf | app/dokku/client.py:113-119 | the quick parse finds at most one domain |
| Client.ScanWebAddress | app/dokku/client.py:113-119 | the loop with `break` computes the specification `WebAddressOf` |
| Client.WebAddressFirstLine | app/dokku/client.py:113-119 | the domain is that of the first line with a non-empty address after its first colon, or none at all |
| Client.QuickApp | app/dokku/client.py:96-130 | the record carries the name, the quick status `QuickStatus` of the report and the `WebAddressOf` domain of its lines, with that domain's URL. A missing report (timeout or failure) gives the default record with UNKNOWN |
| Client.GetAllApps | app/dokku/client.py:85-132 | one record per listed name, in listing order, each built from that application's report |
| Client.ReadQuickApp | app/dokku/client.py:96-126 | the body for one application computes `QuickApp` of its report, or of no report when the status call fails |
| Client.AppInfo | app/dokku/client.py:59-83 | the record is built from the status, domains, count and deploy-source parsers, with the URL of its domains |
| Client.ReportCommand | app/dokku/client.py:31-49 | report commands wait the default 30 seconds |
| Client.LifecycleCommand | app/dokku/client.py:134-148 | the `ps:start`/`ps:stop`/`ps:restart`/`ps:rebuild` commands and their timeouts; stated by `LifecycleTimeouts` and `LifecycleWords` |
| Client.LifecycleTimeouts | app/dokku/client.py:134-148 | start and stop wait 60 s, restart 120 s and rebuild 300 s, all longer than a report |
| Client.LifecycleWords | app/dokku/client.py:134-148 | for a plain name the shell sees the verb and the name |
| Client.ReportWords | app/dokku/client.py:49-73 | for a plain name the shell sees the report and the name |
| Client.EscapeValue | app/dokku/client.py:159 | every `'` of the value becomes `'"'"'`; `EscapedRun` and `QuoteRoundTrip` state that the shell reads the value back |
| Client.ConfigSetCommand | app/dokku/client.py:155-160 | the `config:set` command line, 120-second timeout; `ConfigSetWords` states the words the shell sees |
| Client.ConfigUnsetCommand | app/dokku/client.py:162-165 | the `config:unset` command line, 120-second timeout; `ConfigUnsetWords` states the words the shell sees |
| Client.EscapedRun | app/dokku/client.py:159 | inside single quotes, the escaped value unquotes to the value itself |
| Client.QuoteRoundTrip | app/dokku/client.py:159-160 | `'` + escaped value + `'` is a single shell word equal to the value, whatever it contains |
| Client.ConfigSetWords | app/dokku/client.py:155-160 | for a plain name and key the shell hands `config:set` the optional `--no-restart`, the name and `KEY=value` with the value intact |
| Client.ConfigUnsetWords | app/dokku/client.py:162-165 | for a plain name and key the shell hands `config:unset` the optional `--no-restart`, the name and the key |
| Models.StatusFromValue | app/dokku/models.py:7-16 | reading a status value gives back a member carrying that value |
| Models.StatusesClosed | app/dokku/models.py:7-16 | there are exactly seven statuses, with distinct values |
| Models.StatusValueRoundTrip | app/dokku/models.py:7-16 | every status reads back from its value |
| Models.NewApp | app/dokku/models.py:23-29 | a new application is UNKNOWN, with count 0, no domains and empty strings |
| Models.PrimaryDomain | app/dokku/models.py:31-34 | the first domain, or none exactly when there are no domains |
| Models.IsMasked | app/dokku/models.py:48 | the masking test, sensitive or longer than 50 characters; stated by `MaskedValue` and `MaskedValueBoundary` |
| Models.MaskedValue | app/dokku/models.py:46-50 | the placeholder iff sensitive or longer than 50 characters, otherwise the value itself |
| Models.MaskedValueHidesValue | app/dokku/models.py:48-49 | all masked variables display the same text, so it reveals nothing of the value |
| Models.MaskedValueBoundary | app/dokku/models.py:48 | 50 characters are shown and 51 are masked |
| Models.MaskedDsn | app/dokku/models.py:66-74 | the display is the placeholder or starts with the credential mask |
| Models.SplitCount | app/dokku/models.py:71 | splitting gives one more piece than there are separators |
| Models.MaskedDsnShape | app/dokku/models.py:69-74 | with a colon and exactly one '@' the display is the mask, '@' and the host part; in every other case it is the placeholder |
| Models.MaskedDsnHidesCredentials | app/dokku/models.py:69-73 | two DSNs that differ only in their credentials display the same text, whether the ':' sits in the credentials or in the host part |
| Models.MaskedDsnOf | app/dokku/models.py:69-73 | a DSN with one '@' and a ':' on either side shows the credential mask and its host part |
| Models.StatusColor | app/dokku/models.py:88-96 | `status_color`; its meaning is stated by `StatusColorBands`, `StatusColorMonotone` and `StatusColorBoundaries` |
| Models.StatusColorBands | app/dokku/models.py:87-96 | green for >60 days, yellow for 31-60, orange for 8-30, red for 7 or fewer; each colour holds iff its band does |
| Models.StatusColorMonotone | app/dokku/models.py:90-96 | more days never give a more urgent colour |
| Models.StatusColorBoundaries | app/dokku/models.py:90-96 | the colours at 61/60, 31/30, 8/7 and 0 days |
| Ssl.CertificateOf | app/routers/ssl.py:47-84 | a certificate from a line has renewal days equal to max(0, days-30), never negative, with auto-renew on |
| Ssl.CertificateOfCases | app/routers/ssl.py:47-63 | blank, "---" and "App name" lines, lines with fewer than 4 tokens and lines with an invalid timestamp give no certificate. Otherwise the name is token 0 and the expiry is tokens 1 and 2 joined by a space |
| Ssl.CertificateOfRow | app/routers/ssl.py:52-84 | an accepted row gives the certificate of its tokens, with the days read from the rest of the row |
| Ssl.CertificateRowRoundTrip | app/routers/ssl.py:46-84 | a row of tokens with a valid timestamp, joined by spaces, reads back as its certificate |
| Ssl.ReadCertificateLine | app/routers/ssl.py:47-84 | the `continue`-guarded body computes the specification `CertificateOf` |
| Ssl.DaysOf | app/routers/ssl.py:65-73 | the days-until-expiry column reading; stated by `DaysRoundTrip` and `DaysDefault` |
| Ssl.ValidTimestamp | app/routers/ssl.py:59-63 | the `strptime` acceptance test; stated by `TimestampFields` and `LeapDay` |
| Ssl.ReadDays | app/routers/ssl.py:65-73 | the days are the integer before the first `d,` of the remaining columns, 0 when there is no `d,` or the text is not an integer (`DaysOf`) |
| Ssl.CertificatesOf | app/routers/ssl.py:29-86 | `_get_ssl_certificates` as a specification function; stated by `EmptyOutputShortcut`, `CertificatesRenewal` and `CertificateRowRoundTrip` |
| Ssl.ParseCertificates | app/routers/ssl.py:29-86 | the appending loop computes the specification `CertificatesOf` |
| Ssl.EmptyOutputShortcut | app/routers/ssl.py:41-44 | the early return on empty output agrees with parsing its lines |
| Ssl.CertificatesRenewal | app/routers/ssl.py:46-84 | at most one certificate per line, each with max(0, days-30) renewal days |
| Ssl.DaysRoundTrip | app/routers/ssl.py:66-71 | "<n>d, ..." gives n days |
| Ssl.DaysDefault | app/routers/ssl.py:66-69 | without "d," the days are 0 |
| Ssl.TimestampFields | app/routers/ssl.py:59-63 | a timestamp is valid iff its year, month, day, hour, minute and second fields are digit strings of the right width and range |
| Ssl.LeapDay | app/routers/ssl.py:61 | February has a 29th day exactly in leap years |
| Ssl.InsertByDays | app/routers/ssl.py:21 | inserting adds one certificate |
| Ssl.SortByDays | app/routers/ssl.py:21 | sorting keeps the length |
| Ssl.InsertElements | app/routers/ssl.py:21 | inserting adds exactly that certificate to the multiset |
| Ssl.InsertSorted | app/routers/ssl.py:21 | inserting into a sorted list keeps it sorted |
| Ssl.InsertStable | app/routers/ssl.py:21 | inserting keeps the order among certificates of the same expiry |
| Ssl.SortByDaysSorted | app/routers/ssl.py:21 | the result is ascending in days until expiry |
| Ssl.SortByDaysPermutes | app/routers/ssl.py:21 | the result is a permutation of the input |
| Ssl.SortByDaysStable | app/routers/ssl.py:21 | certificates of the same expiry keep their input order (the sort is stable) |
| Ssl.InsertAt | app/routers/ssl.py:21 | inserting places the certificate after every one that does not expire later |
| Ssl.InsertLast | app/routers/ssl.py:21 | one insertion step on the array: the prefix becomes the sorted insertion of the next element, the rest is untouched |
| Ssl.SortByExpiry | app/routers/ssl.py:21 | the in-place sort leaves the array equal to the stable sort of its old contents |
| Ssl.ListCertificates | app/routers/ssl.py:15-26 | the page lists the parsed certificates, stably sorted by expiry |
| Logs.EscapeHtml | app/routers/logs.py:70-78 | `_escape_html`, the chain of five replaces; its meaning is stated by `EscapeHtmlIsEscapeEach`, `UnescapeEscape`, `EscapeHtmlSafe` and `EscapeHtmlLength` |
| Logs.EscapeChar | app/routers/logs.py:72-78 | each character escapes to itself or to an entity starting with '&' |
| Logs.EscapeHtmlConcat | app/routers/logs.py:72-78 | the chain of replaces escapes a concatenation piecewise |
| Logs.EscapeHtmlChar | app/routers/logs.py:72-78 | the chain of replaces maps each character to its own entity |
| Logs.EscapeHtmlIsEscapeEach | app/routers/logs.py:72-78 | the five-replace chain equals escaping character by character, because '&' is replaced first |
| Logs.UnescapeStep | app/routers/logs.py:72-78 | the decoder reads one escaped character back from the front |
| Logs.UnescapeEscape | app/routers/logs.py:70-78 | decoding inverts `_escape_html` on every text |
| Logs.EscapeHtmlSafe | app/routers/logs.py:70-78 | the output holds no `<`, `>`, `"` or `'` |
| Logs.EscapeHtmlPlain | app/routers/logs.py:70-78 | text without special characters is unchanged |
| Logs.EscapeHtmlLength | app/routers/logs.py:70-78 | the output is never shorter, and equally long iff there was nothing to escape |
| Logs.LevelOf | app/routers/logs.py:46-53 | the level tests on the lower-cased line; stated by `LevelPriority` |
| Logs.ErrorContainsErr | app/routers/logs.py:48 | "error" implies "err", so the first test reduces to "err" |
| Logs.LevelPriority | app/routers/logs.py:46-53 | "err" gives error whatever else is present. Failing that "warn" gives warn, failing that "info" gives info, otherwise plain; each iff its condition |
| Logs.ErrorEventDataShape | app/routers/logs.py:63-66 | a failure's event data has the same shape with the error classes and the `Error: ` label, and the text after the label decodes back to the message |
| Logs.ErrorEventData | app/routers/logs.py:63-66 | the markup of a failure of the stream; stated by `ErrorEventDataShape` |
| Logs.CssClass | app/routers/logs.py:46-53 | every level's classes begin with the base class "log-line" |
| Logs.LogEventData | app/routers/logs.py:55-58 | the markup of one streamed line; stated by `LogEventDataShape` |
| Logs.LogEventDataShape | app/routers/logs.py:55-58 | the only `<` of a line's event data open the `div` and close it, the class attribute holds the line's classes, and the text between the tags decodes back to the line |
| Host.IsAppDirName | app/routers/services.py:314 | a name is an application directory when it is not hidden and not ENV, VHOST, tls or dokkurc; stated by `AppDirs` and `AppDirsOne` |
| Host.AppDirs | app/routers/services.py:313-315 | the application directories are exactly the listed entries whose names are not hidden or reserved, and no more than the listing |
| Host.AppDirsOne | app/routers/services.py:313-315 | one entry is kept exactly when its name is not hidden or reserved |
| Host.AppDirsConcat | app/routers/services.py:313-315 | scanning a listing part by part gives the parts' results in listing order |
| Services.ServicePathInjective | app/routers/services.py:55 | distinct service names have distinct paths |
| Services.InspectFields | app/routers/services.py:71-72 | non-empty inspect output splits into at least one field, none holding '|' |
| Services.InspectStatus | app/routers/services.py:68-74 | "running" iff there are two or more fields and field 0 is "running", otherwise "stopped" |
| Services.InspectVersion | app/routers/services.py:69-75 | with fewer than two fields the version stays "unknown" |
| Services.TypePrefix | app/routers/services.py:75 | the prefix removed from an image name ends in ':' |
| Services.RedisVersionAsWrittenKeepsNamespace | app/routers/services.py:75 | the source's replace order turns "redis/redis:<tag>" into "redis/<tag>"; the intended order gives "<tag>" |
| Services.VersionStripsPrefix | app/routers/services.py:75 | with the intended order (`IntendedVersion`, the corrected half of the finding below), "<type>:<tag>" gives "<tag>" for every type, and so does "redis/redis:<tag>" for redis |
| Services.VersionUntagged | app/routers/services.py:143 | an image without ':' is its own version, in the source's order and in the intended one |
| Services.ImageVersionOfTag | app/routers/services.py:75 | in the source's order "<type>:<tag>" shows "<tag>" for every type, while redis's "redis/redis:<tag>" shows "redis/<tag>" |
| Services.ImageVersion | app/routers/services.py:75 | the version removal in the source's order; stated by `ImageVersionOfTag`, `VersionUntagged` and `InspectRoundTrip` |
| Services.InspectRoundTrip | app/routers/services.py:68-75 | "state|image\n" gives the state as running/stopped and the image's version in the source's removal order |
| Services.InspectShowsTag | app/routers/services.py:68-75 | a container of image "<type>:<tag>" is listed at version "<tag>", and one of "redis/redis:<tag>" at "redis/<tag>" |
| Services.InspectSingleField | app/routers/services.py:68-75 | output without '|' gives "stopped" and "unknown" |
| Services.DsnLineMatches | app/routers/services.py:84 | the per-type DSN line test: "export REDIS_URL=" at the start for redis (line 84), "DATABASE_URL=" anywhere for postgres and mysql (lines 152, 217), "MONGO_URL=" or "DATABASE_URL=" for mongo (line 282); stated by `MatchHasEquals` and `DsnLineMatchesType` |
| Services.MatchHasEquals | app/routers/services.py:84-85 | every DSN line a type accepts holds '=' |
| Services.DsnValue | app/routers/services.py:85 | the value neither starts nor ends with a single quote |
| Services.DsnOf | app/routers/services.py:78-88 | the DSN of the ENV lines as a specification function; stated by `DsnFirstLine` and `DsnRoundTrip` |
| Services.EnvDsn | app/routers/services.py:76-87 | a missing or unreadable ENV file gives "", otherwise `DsnOf` of its lines |
| Services.ScanDsn | app/routers/services.py:78-88 | the loop with `break` computes the specification `DsnOf` |
| Services.DsnFirstLine | app/routers/services.py:78-88 | the DSN comes from the first matching line, or is "" when no line matches |
| Services.DsnKey | app/routers/services.py:84 | a DSN line is the type's key, '=' and the value |
| Services.DsnLineMatchesType | app/routers/services.py:152-153 | the line a type writes is one its rule accepts |
| Services.DsnRoundTrip | app/routers/services.py:78-88 | a quoted URL on the first matching ENV line reads back as the URL |
| Services.MentionsServiceIffName | app/routers/services.py:323 | the link test holds iff the ENV content contains the service name (the "dokku.type.name" test adds nothing) |
| Services.IsLinkedIffMentions | app/routers/services.py:318-324 | an entry is linked iff its ENV file exists and mentions the name |
| Services.LinkedFrom | app/routers/services.py:313-324 | no more linked applications than listed entries |
| Services.LinkedFromOne | app/routers/services.py:318-324 | one entry contributes its name exactly when it is linked |
| Services.LinkedFromConcat | app/routers/services.py:313-324 | scanning the listing part by part gives the parts' results in listing order |
| Services.LinkedFromMembers | app/routers/services.py:313-324 | the linked applications are exactly the application directories whose ENV mentions the service |
| Services.LinkedApps | app/routers/services.py:307-330 | `_get_service_links`: [] when the home directory cannot be listed, otherwise `LinkedFrom`; stated by `LinkedFromMembers` and `LinkedFromConcat` |
| Services.GetServiceLinks | app/routers/services.py:307-330 | the appending loop computes `LinkedApps`, and a failed listing gives [] |
| Services.ServiceOf | app/routers/services.py:93-102 | a service record carries the entry's name, its type, and a running/stopped status; its version is the source's, so a "redis/redis:<tag>" image shows "redis/<tag>" |
| Services.ServiceDirs | app/routers/services.py:100-101 | config and data directories lie under the service path and differ |
| Services.ReadService | app/routers/services.py:59-102 | the body for one entry computes `ServiceOf` |
| Services.ServicesOf | app/routers/services.py:42-107 | `_get_<type>_services` as a specification function; stated by `ServicesFromVisible`, `ServicesStopAtFailure` and `ServicesFromComplete` |
| Services.GetServices | app/routers/services.py:42-107 | the listing loop computes `ServicesOf`; a missing root gives [] |
| Services.ServicesFromVisible | app/routers/services.py:51-57 | every service comes from a visible directory entry, at most one per entry |
| Services.ServicesStopAtFailure | app/routers/services.py:60-105 | a failing `docker inspect` ends the listing with the services read so far |
| Services.ServicesFromComplete | app/routers/services.py:51-102 | when docker answers for every entry, there is one service per visible directory, in listing order |
| Services.AllServices | app/routers/services.py:16-34 | the four service lists concatenated in the page's order; stated by `ServicesOfKind` and `AllServicesGrouped` |
| Services.ListServices | app/routers/services.py:15-39 | the page concatenates redis, postgres, mysql and mongo services |
| Services.ServicesOfKind | app/routers/services.py:93-96 | every service of a root carries that root's type |
| Services.AllServicesGrouped | app/routers/services.py:21-34 | in the page, redis precede postgres, which precede mysql, which precede mongo |
| Plugins.PluginOf | app/routers/plugins.py:25-37 | a plugin comes from a non-blank, non-decoration line, with token name and version and a description that starts with no blank |
| Plugins.PluginLineRoundTrip | app/routers/plugins.py:25-37 | "name version description" reads back as that plugin |
| Plugins.PluginSingleField | app/routers/plugins.py:32 | a line with one token yields no plugin |
| Plugins.PluginLines | app/routers/plugins.py:25-41 | at most one plugin per line |
| Plugins.ServiceTypesArePlugins | app/routers/plugins.py:57 | the four service types are among the service plugins |
| Plugins.ServiceNamesFrom | app/routers/plugins.py:65-68 | every name read from a service list is a token |
| Plugins.ServiceNamesFailure | app/routers/plugins.py:65-67 | the extraction fails exactly when a kept line is whitespace only (the source's `split()[0]` raises) |
| Plugins.ServiceNamesRoundTrip | app/routers/plugins.py:65-68 | rows "name ..." read back as the names, in order |
| Plugins.ServiceListApps | app/routers/plugins.py:58-68 | the appending loop computes `ServiceNamesFrom` |
| Plugins.LetsencryptMembers | app/routers/plugins.py:72-78 | an application uses letsencrypt iff it is an application directory where `<app>/letsencrypt` exists |
| Plugins.LetsencryptFrom | app/routers/plugins.py:72-80 | the letsencrypt scan as a specification function; stated by `LetsencryptMembers` |
| Plugins.LetsencryptApps | app/routers/plugins.py:71-80 | the appending loop computes `LetsencryptFrom`, and a failed listing gives [] |
| Plugins.PluginApps | app/routers/plugins.py:49-82 | a plugin that is not a service plugin always gets a list, and one that is neither a service plugin nor letsencrypt gets [] |
| Plugins.GetPluginApps | app/routers/plugins.py:49-82 | the dispatch computes `PluginApps` |
| Plugins.PluginsFrom | app/routers/plugins.py:24-41 | the plugin list as a specification function; stated by `PluginsFollowLines` |
| Plugins.ListPlugins | app/routers/plugins.py:11-46 | the appending loop computes `PluginsFrom` |
| Plugins.PluginsFollowLines | app/routers/plugins.py:25-41 | the plugins are those of the accepted lines, one each, in output order |
| System.SecondLineFields | app/routers/system.py:32-33 | the fields are tokens, and output with fewer than two lines gives none |
| System.SecondLineRoundTrip | app/routers/system.py:32-33 | a header line and a row of tokens give back the row |
| System.DiskRoundTrip | app/routers/system.py:84-89 | size, used, available and percent are row columns 1-4, or "N/A" when missing |
| System.MemoryRoundTrip | app/routers/system.py:90-94 | total, used and free are row columns 1-3, or "N/A" when missing |
| System.SingleLineOutput | app/routers/system.py:84-94 | single-line output leaves every field "N/A" |
| System.NonEmptyCount | app/routers/system.py:58 | the count is at most the number of lines |
| System.NonEmptyCountAll | app/routers/system.py:58 | with no empty line, every line counts |
| System.LineCountBlank | app/routers/system.py:58 | blank output counts 0 |
| System.LineCountRoundTrip | app/routers/system.py:72 | one id per line, newline-terminated, counts the ids |
| System.LinkedWithinAppCount | app/routers/system.py:75-79 | a service never has more linked applications than the application count |
| System.LetsencryptWithinAppDirs | app/routers/system.py:75-77 | letsencrypt applications are no more than the application directories |
| System.DiskOf | app/routers/system.py:32-88 | the `df` figures; stated by `DiskRoundTrip` and `SingleLineOutput` |
| System.MemoryOf | app/routers/system.py:41-94 | the `free` figures; stated by `MemoryRoundTrip` and `SingleLineOutput` |
| System.LineCount | app/routers/system.py:58 | the count of non-empty lines of stripped output; stated by `NonEmptyCount`, `LineCountBlank` and `LineCountRoundTrip` |
| System.AppCount | app/routers/system.py:75-79 | the application count, 0 on a failed listing; stated by `LinkedWithinAppCount` and `SystemInfoOf` |
| System.SystemInfoOf | app/routers/system.py:24-99 | both versions are stripped and the application count never exceeds the listing |

## Left out

- The SSH transport (`asyncssh`), the `asyncio.wait_for` timeouts and the
  concurrency of the async handlers. A command's stdout and stderr are
  parameters. A report that timed out or failed in `get_all_apps` is an
  absent map entry.
- `logs_stream`, `logs_recent` and the server-sent-event loop. The model
  covers what happens to one line (classification and escaping) and the
  markup of a failure's message, not the stream or its cancellation.
- `subprocess`, `os.listdir`, `os.path.exists`/`isdir` and `open`. Their
  results are parameters, and the model takes the listing order of
  `os.listdir` as given.
- A failure part-way through reading an ENV file. The model reads a file
  whole or not at all.
- Byte decoding (`stdout.decode()`). Command output is a `string`.
- Python's universal newlines. A lone carriage return is not a line break
  in the model. File lines are the '\n'-separated pieces without
  terminators. This gives the same matches and values, because the patterns
  and the stripped values hold no newline.
- Unicode case folding. `lower()` is ASCII only.
- `int()` leniency (underscores, non-ASCII digits). `int()` accepts an
  optional sign and ASCII digits, with surrounding whitespace stripped.
- Non-ASCII decimal digits in `re.search(r"(\d+)")` (app/dokku/client.py:195) and in
  `strptime`'s numeric fields (app/routers/ssl.py:61). Python's `\d` and `strptime`
  accept any Unicode decimal digit; `PyStr.FirstDigitRun` and
  `Ssl.ValidTimestamp` accept ASCII digits only.
- `datetime.strptime`. Validity is a fixed format:
  - a year of 4 digits, at least 1;
  - the other fields of 1-2 digits;
  - month 1-12, a day within the month (leap years counted), hour 0-23,
    minute and second 0-59.
- The Gregorian date itself is not kept; the certificate holds the expiry
  text.
- `_escape_html` has no inverse in the source. Its partner is a single-pass
  entity decoder, `Logs.UnescapeHtml`. The replace chain `&#39;`, `&quot;`,
  `&gt;`, `&lt;`, `&amp;` is not modelled separately.
- The FastAPI routes, the Jinja templates, the status-badge colours and the
  API endpoints. `app/routers/apps.py`, `app/routers/config.py`,
  `app/main.py`, `app/auth.py`, `app/config.py` and `app/dokku/__init__.py`
  are not part of this model.
- `ProcessScale`. It is a plain record with no behaviour, declared in
  `models.dfy` without members.
- Shell quoting beyond what the commands use. `Shell.Words` covers blanks,
  plain characters, backslash, single quotes and double quotes. It rejects
  operators, expansions, patterns, comments and tildes instead of
  interpreting them. Application names
  and keys are stated for plain words only, as the source inserts them
  unescaped.

## Findings

| source | as written | input that shows it | evidently intended | confidence | as-written member | corrected member |
|---|---|---|---|---|---|---|
| app/routers/services.py:75 | the redis version removes every "redis:" before every "redis/redis:", so on a namespaced image "redis/redis:<tag>" whose tag holds no ':' and no '/' the second replace never matches | image "redis/redis:7.2" gives version "redis/7.2" | the namespaced prefix is removed as well, giving "7.2" | medium, not executed | Services.RedisVersionAsWrittenKeepsNamespace | Services.VersionStripsPrefix |

The service listing (`Services.InspectVersion`, `ServiceOf`, `GetServices`
and `ListServices`) keeps the order as written, through `ImageVersion`, so a
redis service built from "redis/redis:7.2" is listed at version "redis/7.2".
`Services.IntendedVersion` is the corrected definition the finding's
intended property is proved about.
