# DX run listener plugin for Jenkins, modelled in Dafny

This project models the core of a Jenkins plugin that reports completed
pipeline runs to a DX API. When a run completes, the listener decides
whether to send anything. It sends nothing if the plugin is not configured,
if the repository's short name cannot be derived, or if that name is on the
configured denylist. Otherwise it assembles a flat JSON payload:

- the pipeline name, reference id and source id
- start and finish times in whole seconds
- a status mapped from the Jenkins result
- the repository name and URL
- the head branch and, for change requests, the base branch and PR number
- the commit
- an author address, taken from the contributor metadata, then the change
  log, then the triggering user
- a pipeline source label, looked up in a host-name table read once from a
  CSV resource

The model is split into five files:

- `wrappers.dfy`: `Option`, which stands for Java's `null`.
- `java_text.dfy`: the parts of `java.lang.String` the plugin relies on, stated on `seq<char>`:
  - `trim()` removes chars up to U+0020
  - ASCII `toLowerCase()`
  - `startsWith` and `endsWith`
  - `split` on a one-character class; trailing empty strings are dropped, and `""` splits to `[""]`
  - decimal rendering of an `int`
  - `long` division, which truncates toward zero
- `dx_configuration.dfy`: the global configuration.
  - a class with the base URL and the denylist
  - `isConfigured`
  - the form validator `doCheckDxBaseUrl`
- `hostname_mapping.dfy`: the host-name mapping service.
  - `parseCsvLine`, as a loop proved against a recursive tokenizer
  - the table that the resource's lines build; the last line wins
  - `getCurrentHostname` and the lookup, with default `jenkins-unmapped`
  - the lazily initialized cache, as a class with `initialized` and `hostnameMapping` fields and methods `GetPipelineSourceForCurrentHost`, `InitializeMapping` and `ReloadMapping`
- `run_listener.dfy`: `onCompleted` and its helpers.
  - `mapResult` and branch-prefix stripping
  - `extractRepositoryName`, `isRepositoryDenied`, `resolveRepositoryUrl` and `firstNonEmpty`
  - the SCM head, the email fallback chain and the payload
  - the Jenkins object model is the record `Run`, holding what the listener reads from it
  - the pure function `CompletedEvent` says what `onCompleted` sends
  - the methods `OnCompleted`, `BuildEvent`, `ReadRun`, `NameEvent` and `AssemblePayload` take the Java's steps in the Java's order and are proved to compute `CompletedEvent` and `PayloadOf`

Each loop in the Java code is a Dafny `method` proved against a
specification:

- `parseCsvLine`: against the recursive tokenizer `RawFields`, trimmed
- the read loop of `initializeMapping`: against the fold `TableOf` over the lines read
- the denylist search: against the `exists` over the split entries in `Denied`
- `firstNonEmpty`: against the recursive `FirstNonBlank`
- the nested change-log loops: against the recursive `ChangeLogEmail`

Where the code and the behaviour described for it disagree, the model
follows the code:

- Branch-prefix stripping applies three `replaceFirst` calls in sequence.
  It can remove more than one prefix, e.g. `refs/heads/origin/x` becomes
  `x`. It is also not idempotent: `origin/refs/heads/main` becomes
  `refs/heads/main`, and only a second pass gives `main`.
  See `StripRemovesTwoPrefixes` and `StripNotIdempotent`.
- `mapResult(null)` returns `"failure"`. The unit test at
  `src/test/java/io/jenkins/plugins/sample/DxRunListenerTest.java:17`
  expects `"unknown"`. `MapResult` states the code's behaviour.
- `extractRepositoryName` indexes the last element of the split. When the
  URL, without `.git`, is made only of `/` and `:` characters, the split is
  empty and Java throws. The model returns `None`, and nothing is sent.
- `onCompleted` calls `getPipelineSourceForCurrentHost` twice: once for the
  log line and once for the payload. The model keeps both calls. The first
  call builds the table, so both give the same label.
- The listener calls `getRepositoryDenylist()`, but
  `DxGlobalConfiguration.java` as given declares no such getter. The
  model adds a `repositoryDenylist` field and a getter.

## Model

| member | source | states |
|---|---|---|
| JavaText.Trim | src/main/java/io/jenkins/plugins/sample/DxGlobalConfiguration.java:38 | `trim()` never lengthens; its result is empty or starts and ends above U+0020; a first char above U+0020 survives. That only chars up to U+0020 are removed is stated by `TrimSlice`. |
| JavaText.BlankIff | src/main/java/io/jenkins/plugins/sample/DxRunListener.java:215-219 | `s.trim().isEmpty()` holds exactly when every char of `s` is at most U+0020. |
| JavaText.TrimKeeps | src/main/java/io/jenkins/plugins/sample/HostnameMappingService.java:95 | A string that starts and ends above U+0020 is its own trim. |
| JavaText.TrimIdempotent | src/main/java/io/jenkins/plugins/sample/HostnameMappingService.java:103-104 | Trimming an already trimmed field changes nothing. |
| JavaText.TrimSlice | src/main/java/io/jenkins/plugins/sample/DxRunListener.java:222 | The trim is a contiguous slice `s[i..j]`, and every char before `i` and from `j` on is at most U+0020: only such chars are removed, on both sides. |
| JavaText.TrimChars | src/main/java/io/jenkins/plugins/sample/HostnameMappingService.java:103-104 | Trimming introduces no char that was not in the string. |
| JavaText.ToLower | src/main/java/io/jenkins/plugins/sample/DxRunListener.java:222 | Lower-casing keeps the length and maps each char on its own. |
| JavaText.DropTrailingEmpty | src/main/java/io/jenkins/plugins/sample/DxRunListener.java:210 | `split` drops only trailing empty strings; the result is a prefix of the pieces and does not end in an empty string. |
| JavaText.LastPiece | src/main/java/io/jenkins/plugins/sample/DxRunListener.java:210-211 | The last piece is the longest separator-free suffix of the string. |
| JavaText.SplitLast | src/main/java/io/jenkins/plugins/sample/DxRunListener.java:210-211 | Splitting gives nothing exactly when the string is only separators; otherwise the last part is the last non-empty segment, followed only by separators. |
| JavaText.PiecesAround | src/main/java/io/jenkins/plugins/sample/DxRunListener.java:223 | A separator splits the pieces into those before it and those after it. |
| JavaText.PiecesOfSegment | src/main/java/io/jenkins/plugins/sample/DxRunListener.java:223 | A string without separators is one piece. |
| JavaText.Pieces | src/main/java/io/jenkins/plugins/sample/DxRunListener.java:210 | The pieces of a string between separator chars, empty ones included; there is always at least one. |
| JavaText.Split | src/main/java/io/jenkins/plugins/sample/DxRunListener.java:210 | `String.split` on a one-character class: `[""]` for `""`, else the pieces without their trailing empty ones. Its shape is stated by `DropTrailingEmpty`, `SplitLast`, `PiecesAround` and `PiecesOfSegment`. |
| JavaText.NatToString | src/main/java/io/jenkins/plugins/sample/DxRunListener.java:136 | The decimal rendering of the run number is non-empty and all digits. |
| JavaText.NatToStringValue | src/main/java/io/jenkins/plugins/sample/DxRunListener.java:136 | The rendering reads back, digit by digit, as the number itself, and it starts with `0` only for zero. |
| JavaText.IntToString | src/main/java/io/jenkins/plugins/sample/DxRunListener.java:136 | `Integer.toString` is non-empty and starts with `-` exactly for a negative number. |
| JavaText.JavaDiv | src/main/java/io/jenkins/plugins/sample/DxRunListener.java:117-118 | Java's `/` on `long`: for a non-negative dividend `q * b` is the largest multiple of `b` not above it, for a negative one the smallest not below it; that is, truncation toward zero. |
| JavaText.EpochSeconds | src/main/java/io/jenkins/plugins/sample/DxRunListener.java:117-118 | `millis / 1000` on a Java `long`; its bounds are stated by `EpochSecondsTruncates` and `EpochSecondsMonotone`. |
| JavaText.EpochSecondsTruncates | src/main/java/io/jenkins/plugins/sample/DxRunListener.java:117-118 | `millis / 1000` drops the sub-second part toward zero, for negative values too. |
| JavaText.EpochSecondsMonotone | src/main/java/io/jenkins/plugins/sample/DxRunListener.java:117-118 | The conversion to seconds never reverses the order of two instants. |
| DxConfiguration.UrlIsSetIff | src/main/java/io/jenkins/plugins/sample/DxGlobalConfiguration.java:37-39 | `isConfigured` holds exactly when the URL is non-null and has a char above U+0020. |
| DxConfiguration.UrlIsSet | src/main/java/io/jenkins/plugins/sample/DxGlobalConfiguration.java:37-39 | `isConfigured`: the URL is non-null and not blank; `UrlIsSetIff` states it char by char. |
| DxConfiguration.CheckDxBaseUrl | src/main/java/io/jenkins/plugins/sample/DxGlobalConfiguration.java:48-56 | "empty" warning exactly for a null or blank value; "https" warning exactly for a non-blank value without the literal `https://` prefix; OK exactly for a value with the prefix. |
| DxConfiguration.AcceptedUrlIsSet | src/main/java/io/jenkins/plugins/sample/DxGlobalConfiguration.java:37-56 | A URL the form check accepts makes the plugin configured once stored. |
| DxConfiguration.LeadingSpaceWarns | src/main/java/io/jenkins/plugins/sample/DxGlobalConfiguration.java:52-53 | The prefix test looks at the untrimmed value: ` https://…` draws the https warning. |
| DxConfiguration.DxGlobalConfiguration.constructor | src/main/java/io/jenkins/plugins/sample/DxGlobalConfiguration.java:18-20 | The configuration starts with the persisted URL and denylist. |
| DxConfiguration.DxGlobalConfiguration.SetDxBaseUrl | src/main/java/io/jenkins/plugins/sample/DxGlobalConfiguration.java:26-39 | The getter returns the stored URL; the denylist is unchanged; `isConfigured` now holds exactly when that URL is set. |
| HostnameMapping.ParseCsvLine | src/main/java/io/jenkins/plugins/sample/HostnameMappingService.java:141-166 | The character loop returns no fields for a blank line, else exactly the trimmed fields of the tokenizer: `"` toggles quote mode and is dropped, a comma outside quotes ends a field. |
| HostnameMapping.RawFields | src/main/java/io/jenkins/plugins/sample/HostnameMappingService.java:150-163 | The tokenizer: `"` toggles quote mode and is dropped, a comma outside quotes closes a field; there is always at least one field. |
| HostnameMapping.TrimAll | src/main/java/io/jenkins/plugins/sample/HostnameMappingService.java:163 | Each field trimmed in place: same length, field k is the trim of field k. |
| HostnameMapping.CsvFields | src/main/java/io/jenkins/plugins/sample/HostnameMappingService.java:141-166 | `parseCsvLine` as a function: no fields for a blank line, else the trimmed tokenizer fields; `ParseCsvLine` is proved to compute it. |
| HostnameMapping.ScanStep | src/main/java/io/jenkins/plugins/sample/HostnameMappingService.java:150-161 | Each loop step keeps the invariant: the closed fields, the current field and the rest of the line make up the tokenizer's fields. |
| HostnameMapping.CsvFieldCount | src/main/java/io/jenkins/plugins/sample/HostnameMappingService.java:141-166 | A blank line has no fields; any other line has one field more than it has commas outside quotes. |
| HostnameMapping.CsvFieldsClean | src/main/java/io/jenkins/plugins/sample/HostnameMappingService.java:153-163 | No field contains a quote char, and every field is already trimmed. |
| HostnameMapping.RawFieldsJoin | src/main/java/io/jenkins/plugins/sample/HostnameMappingService.java:150-163 | Joining the untrimmed fields with commas gives back the line without its quote chars. Nothing else is lost. |
| HostnameMapping.RawFieldsPlain | src/main/java/io/jenkins/plugins/sample/HostnameMappingService.java:158-160 | Chars other than quotes, and other than commas outside quotes, extend the current field. |
| HostnameMapping.QuotedCommaField | src/main/java/io/jenkins/plugins/sample/HostnameMappingService.java:153-155 | `"x",y` reads as `x` and `y` even when `x` holds commas. |
| HostnameMapping.LineEntryShape | src/main/java/io/jenkins/plugins/sample/HostnameMappingService.java:94-110 | Blank and `#` lines add nothing. An entry is fields 0 and 1 of the tokenized line, both non-empty, trimmed and free of quotes. |
| HostnameMapping.LineEntryOfFields | src/main/java/io/jenkins/plugins/sample/HostnameMappingService.java:94-110 | Conversely, any line whose trim is non-empty, does not start with `#` and tokenizes into at least two fields with non-empty first two adds exactly those two fields, whatever the padding and however many fields follow. |
| HostnameMapping.LineEntry | src/main/java/io/jenkins/plugins/sample/HostnameMappingService.java:95-110 | What one line adds: nothing for a blank or `#` line, else `FieldsEntry` of its fields. |
| HostnameMapping.FieldsEntry | src/main/java/io/jenkins/plugins/sample/HostnameMappingService.java:102-110 | Fields 0 and 1, trimmed, when there are two and both are non-empty; further fields are ignored. |
| HostnameMapping.TwoFieldLine | src/main/java/io/jenkins/plugins/sample/HostnameMappingService.java:94-110 | A trimmed line, not a comment, that tokenizes into exactly two trimmed, non-empty fields adds that pair; the general case is `LineEntryOfFields`. |
| HostnameMapping.PlainLine | src/main/java/io/jenkins/plugins/sample/HostnameMappingService.java:94-110 | `host,label` adds the pair (host, label). |
| HostnameMapping.QuotedValueLine | src/main/java/io/jenkins/plugins/sample/HostnameMappingService.java:94-110 | `host,"label"` adds the pair (host, label); the quotes are dropped. |
| HostnameMapping.TableOfSnoc | src/main/java/io/jenkins/plugins/sample/HostnameMappingService.java:94-111 | One more line changes the table only through that line's entry. |
| HostnameMapping.EntriesOf | src/main/java/io/jenkins/plugins/sample/HostnameMappingService.java:94-111 | The entry of every line, in order: same length, entry i is the entry of line i. |
| HostnameMapping.Fold | src/main/java/io/jenkins/plugins/sample/HostnameMappingService.java:107 | The successive `mapping.put` calls over the entries, skipping absent ones. |
| HostnameMapping.TableOf | src/main/java/io/jenkins/plugins/sample/HostnameMappingService.java:94-111 | The map the read loop builds from the lines; its keys and values are stated by `TableKeys`, `TableLastWins` and `TableValuesNonBlank`. |
| HostnameMapping.FoldLastWins | src/main/java/io/jenkins/plugins/sample/HostnameMappingService.java:107 | A key is in the map exactly when some entry has it; its value is the one from the last entry that has it. |
| HostnameMapping.TableKeys | src/main/java/io/jenkins/plugins/sample/HostnameMappingService.java:94-111 | A host is in the table exactly when some line defines it. |
| HostnameMapping.TableLastWins | src/main/java/io/jenkins/plugins/sample/HostnameMappingService.java:94-111 | A host's label comes from the last line that defines it. |
| HostnameMapping.TableValuesNonBlank | src/main/java/io/jenkins/plugins/sample/HostnameMappingService.java:106-107 | Every label in the table is non-blank. |
| HostnameMapping.LastDefinition | src/main/java/io/jenkins/plugins/sample/HostnameMappingService.java:94-111 | Every defined host has a last defining line. |
| HostnameMapping.TwoLines | src/main/java/io/jenkins/plugins/sample/HostnameMappingService.java:94-111 | Two defining lines build the table of both pairs, with the later put last. |
| HostnameMapping.TableScenario | src/main/java/io/jenkins/plugins/sample/HostnameMappingService.java:30-53 | For a resource of `hostA,"sourceA"` then `hostB,sourceB`: each host resolves to its label, and any other host resolves to the default. |
| HostnameMapping.ResolveTwo | src/main/java/io/jenkins/plugins/sample/HostnameMappingService.java:39-47 | The lookup against a two-host table. |
| HostnameMapping.LinesRead | src/main/java/io/jenkins/plugins/sample/HostnameMappingService.java:91-94 | No lines without the resource; otherwise a prefix of the lines: all of them when no read fails, exactly the first k when the read of line k fails. |
| HostnameMapping.CurrentHostname | src/main/java/io/jenkins/plugins/sample/HostnameMappingService.java:60-71 | The local host name if it can be found, else a non-blank HOSTNAME variable, else failure. |
| HostnameMapping.Resolve | src/main/java/io/jenkins/plugins/sample/HostnameMappingService.java:35-52 | The label is never empty. It is the host's entry when that entry exists and is non-blank, and `jenkins-unmapped` otherwise, including when no host name can be found. |
| HostnameMapping.LookupFindsTableEntry | src/main/java/io/jenkins/plugins/sample/HostnameMappingService.java:39-43 | A host that the table holds always gets its own label, never the default. |
| HostnameMapping.MissingResourceMeansDefault | src/main/java/io/jenkins/plugins/sample/HostnameMappingService.java:83-89 | Without the CSV resource every host gets `jenkins-unmapped`. |
| HostnameMapping.ReadLine | src/main/java/io/jenkins/plugins/sample/HostnameMappingService.java:95-110 | The loop body for one line adds exactly that line's entry. |
| HostnameMapping.PutFields | src/main/java/io/jenkins/plugins/sample/HostnameMappingService.java:102-110 | Fields 0 and 1, trimmed, are put only when both are there and non-empty. |
| HostnameMapping.HostnameMappingService.constructor | src/main/java/io/jenkins/plugins/sample/HostnameMappingService.java:23-24 | The cache starts uninitialized and empty. |
| HostnameMapping.HostnameMappingService.GetPipelineSourceForCurrentHost | src/main/java/io/jenkins/plugins/sample/HostnameMappingService.java:30-53 | Builds the table on first use only, then returns the never-empty lookup result for the current host. |
| HostnameMapping.HostnameMappingService.InitializeMapping | src/main/java/io/jenkins/plugins/sample/HostnameMappingService.java:76-134 | Once initialized, it is a no-op. Otherwise the table is built from the lines read before the resource ends or a read fails. A missing resource gives the empty table. |
| HostnameMapping.HostnameMappingService.ReloadMapping | src/main/java/io/jenkins/plugins/sample/HostnameMappingService.java:172-176 | Always rebuilds the table from the current resource. |
| RunListener.MapResult | src/main/java/io/jenkins/plugins/sample/DxRunListener.java:178-195 | "success" iff SUCCESS. "cancelled" iff ABORTED or NOT_BUILT. "failure" iff FAILURE, UNSTABLE or null. |
| RunListener.RunStatus | src/main/java/io/jenkins/plugins/sample/DxRunListener.java:119-122 | The "failure" fallback never fires: the status is `mapResult`'s, one of three values. |
| RunListener.ReplaceFirstPrefix | src/main/java/io/jenkins/plugins/sample/DxRunListener.java:60-63 | `replaceFirst("^prefix", "")`: a string that starts with the prefix is the prefix followed by the result; any other is unchanged. |
| RunListener.StripInOrder | src/main/java/io/jenkins/plugins/sample/DxRunListener.java:60-63 | Three leading replacements in a row leave a suffix of the name. |
| RunListener.StripRefPrefixes | src/main/java/io/jenkins/plugins/sample/DxRunListener.java:59-70 | The three `replaceFirst` calls on a branch or target name, in the source's order; see `StripRemovesKnownPrefix`. |
| RunListener.StripRemovesKnownPrefix | src/main/java/io/jenkins/plugins/sample/DxRunListener.java:59-70 | What goes is one of the eight combinations of the three prefixes, in order, and the rest is kept. A leading `refs/heads/`, `refs/remotes/origin/` or `origin/` is always part of what goes. A name with none of them is unchanged. |
| RunListener.StripParts | src/main/java/io/jenkins/plugins/sample/DxRunListener.java:60-63 | The name is the three removed pieces followed by the result. Each piece is its prefix exactly when what the earlier calls left starts with it, and empty otherwise. |
| RunListener.LeadingPatternsRemoved | src/main/java/io/jenkins/plugins/sample/DxRunListener.java:60-63 | For any three patterns that pairwise differ at some position, what the three calls remove starts with each pattern the name starts with; a name with none is unchanged. |
| RunListener.PatternParts | src/main/java/io/jenkins/plugins/sample/DxRunListener.java:60-63 | `StripParts` for any three patterns. |
| RunListener.PrefixCombination | src/main/java/io/jenkins/plugins/sample/DxRunListener.java:60-63 | The removed pieces together form one of the eight removable prefixes. |
| RunListener.StripExamples | src/main/java/io/jenkins/plugins/sample/DxRunListener.java:59-70 | `refs/heads/main`, `refs/remotes/origin/main` and `origin/main` all become `main`; `main` and `""` are unchanged. |
| RunListener.StripNotIdempotent | src/main/java/io/jenkins/plugins/sample/DxRunListener.java:59-64 | A second pass can strip more: `origin/refs/heads/main`. |
| RunListener.StripRemovesTwoPrefixes | src/main/java/io/jenkins/plugins/sample/DxRunListener.java:59-64 | `refs/heads/origin/x` loses two prefixes in one pass. |
| RunListener.StripGitSuffix | src/main/java/io/jenkins/plugins/sample/DxRunListener.java:209 | One trailing `.git` is removed, and only that. |
| RunListener.ExtractRepositoryName | src/main/java/io/jenkins/plugins/sample/DxRunListener.java:205-212 | `""` for `""`, else the last part of the split of the URL without `.git`; no name where Java would index an empty array. Its shape is stated by `RepositoryNameShape`. |
| RunListener.RepositoryNameShape | src/main/java/io/jenkins/plugins/sample/DxRunListener.java:205-212 | `""` gives `""`. A URL that is only separators once `.git` is gone gives no name. Any other URL gives its last non-empty segment between `/` and `:`, which holds no separator. |
| RunListener.SplitEndsWith | src/main/java/io/jenkins/plugins/sample/DxRunListener.java:210-211 | The last part after a separator is the separator-free tail. |
| RunListener.RepositoryNameExamples | src/main/java/io/jenkins/plugins/sample/DxRunListener.java:205-212 | An https URL and an scp-style URL both give `repo`. |
| RunListener.IsRepositoryDenied | src/main/java/io/jenkins/plugins/sample/DxRunListener.java:214-231 | Returns `Denied`: the name and the list are both non-blank, and some split entry's trimmed lower-case form is non-empty and equals the name's. |
| RunListener.Denied | src/main/java/io/jenkins/plugins/sample/DxRunListener.java:214-231 | `isRepositoryDenied` as a predicate: name and list both non-blank, and some entry of the split list matches the normalized name. |
| RunListener.AnyEntryMatches | src/main/java/io/jenkins/plugins/sample/DxRunListener.java:223-230 | The loop returns true exactly when some entry matches. |
| RunListener.NormalizeEmpty | src/main/java/io/jenkins/plugins/sample/DxRunListener.java:215-222 | A name's normal form is empty exactly when the name is blank. |
| RunListener.DeniedByNormalForm | src/main/java/io/jenkins/plugins/sample/DxRunListener.java:222 | Two names with the same trimmed, lower-cased form are denied alike. |
| RunListener.NormalizeKeeps | src/main/java/io/jenkins/plugins/sample/DxRunListener.java:222 | A trimmed name without upper-case letters is its own normal form. |
| RunListener.TrimLeadingSpace | src/main/java/io/jenkins/plugins/sample/DxRunListener.java:225 | A space after a comma is trimmed away. |
| RunListener.SingleEntry | src/main/java/io/jenkins/plugins/sample/DxRunListener.java:223 | A list without separators is one entry. |
| RunListener.TwoEntries | src/main/java/io/jenkins/plugins/sample/DxRunListener.java:223 | A comma or a newline separates two entries. |
| RunListener.SingleEntryDenied | src/main/java/io/jenkins/plugins/sample/DxRunListener.java:214-231 | A one-entry list denies exactly the non-blank names that the entry matches. |
| RunListener.ExampleRepoPlain | src/test/java/io/jenkins/plugins/sample/DxRunListenerTest.java:22 | `example-repo` is its own normal form. |
| RunListener.ExampleRepoUpper | src/test/java/io/jenkins/plugins/sample/DxRunListenerTest.java:24 | `EXAMPLE-repo` normalizes to `example-repo`. |
| RunListener.DenylistExactEntry | src/test/java/io/jenkins/plugins/sample/DxRunListenerTest.java:22 | An exact single entry denies. |
| RunListener.SpacedListParts | src/test/java/io/jenkins/plugins/sample/DxRunListenerTest.java:23 | `another, example-repo` splits into `another` and ` example-repo`. |
| RunListener.SpacedEntryNormal | src/test/java/io/jenkins/plugins/sample/DxRunListenerTest.java:23 | ` example-repo` normalizes to `example-repo`. |
| RunListener.DenylistSpacedEntry | src/test/java/io/jenkins/plugins/sample/DxRunListenerTest.java:23 | An entry after `, ` is trimmed before comparing, so it denies. |
| RunListener.DenylistCaseAndNewline | src/test/java/io/jenkins/plugins/sample/DxRunListenerTest.java:24 | The name is lower-cased and entries split at newlines, so it denies. |
| RunListener.DenylistOtherEntry | src/test/java/io/jenkins/plugins/sample/DxRunListenerTest.java:25 | A different entry does not deny. |
| RunListener.DenylistBlankInputs | src/test/java/io/jenkins/plugins/sample/DxRunListenerTest.java:26-27 | A blank name or a blank list never denies. |
| RunListener.FirstNonBlankEmpty | src/main/java/io/jenkins/plugins/sample/DxRunListener.java:244-254 | The result is `""` exactly when no value is non-null and non-blank. |
| RunListener.FirstNonBlankAt | src/main/java/io/jenkins/plugins/sample/DxRunListener.java:248-252 | The result is the first non-null, non-blank value, untrimmed. |
| RunListener.FirstNonEmpty | src/main/java/io/jenkins/plugins/sample/DxRunListener.java:244-254 | The loop computes `FirstNonBlank`. |
| RunListener.FirstNonBlank | src/main/java/io/jenkins/plugins/sample/DxRunListener.java:244-254 | The first candidate that is non-null and not blank, untrimmed, else `""`; stated by `FirstNonBlankEmpty` and `FirstNonBlankAt`. |
| RunListener.RepositoryUrlPrecedence | src/main/java/io/jenkins/plugins/sample/DxRunListener.java:233-242 | GIT_URL wins, then GIT_URL_1, then GIT_URL_2, each only when non-blank. The URL is empty exactly when none is usable. |
| RunListener.ResolveRepositoryUrl | src/main/java/io/jenkins/plugins/sample/DxRunListener.java:233-242 | Computes `RepositoryUrl`; an environment that cannot be read gives `""`. |
| RunListener.RepositoryUrl | src/main/java/io/jenkins/plugins/sample/DxRunListener.java:233-242 | `resolveRepositoryUrl`: `""` when the environment cannot be read, else the first usable of GIT_URL, GIT_URL_1, GIT_URL_2; stated by `RepositoryUrlPrecedence`. |
| RunListener.ResolvedEmail | src/main/java/io/jenkins/plugins/sample/DxRunListener.java:85-86 | A non-null, non-empty resolved address is returned as it is; anything else gives no address. |
| RunListener.EntriesEmail | src/main/java/io/jenkins/plugins/sample/DxRunListener.java:82-91 | The address found in one change set is never empty; which one is stated by `EntriesEmailIsFirst`. |
| RunListener.ChangeLogEmail | src/main/java/io/jenkins/plugins/sample/DxRunListener.java:81-95 | The address found in the change log is never empty; which one is stated by `ChangeLogEmailNone` and `ChangeLogEmailIsFirst`. |
| RunListener.EntriesEmailIsFirst | src/main/java/io/jenkins/plugins/sample/DxRunListener.java:82-91 | Within a change set, the address is that of the first entry with a usable one, and there is none when no entry has one. |
| RunListener.ChangeLogEmailNone | src/main/java/io/jenkins/plugins/sample/DxRunListener.java:81-95 | The change log yields no address exactly when no entry of any set has one. |
| RunListener.ChangeLogEmailIsFirst | src/main/java/io/jenkins/plugins/sample/DxRunListener.java:81-95 | The change-log address is that of the first usable entry, in set-then-entry order. |
| RunListener.ScanChangeLog | src/main/java/io/jenkins/plugins/sample/DxRunListener.java:81-95 | The nested loops, each left at the first hit, compute that address, or `""`. |
| RunListener.TriggeringUserEmail | src/main/java/io/jenkins/plugins/sample/DxRunListener.java:98-113 | The build user's address is non-empty. It exists only for a user-id cause with a non-null id of a known user, and for such a user it is that user's resolved address. |
| RunListener.AuthorEmail | src/main/java/io/jenkins/plugins/sample/DxRunListener.java:72-113 | The email fallback chain; stated by `AuthorEmailPrecedence`. |
| RunListener.AuthorEmailPrecedence | src/main/java/io/jenkins/plugins/sample/DxRunListener.java:72-113 | The contributor address comes first, then the change log (AbstractBuild only), then the build user. The address is empty exactly when all three give nothing. |
| RunListener.ReadAuthorEmail | src/main/java/io/jenkins/plugins/sample/DxRunListener.java:72-113 | The email block computes `AuthorEmail`. |
| RunListener.ReadScm | src/main/java/io/jenkins/plugins/sample/DxRunListener.java:37-70 | The SCM block computes `ScmFieldsOf`: the head name (stripped), for a change request its target (stripped) and id, and the revision's text. |
| RunListener.ScmFieldsOf | src/main/java/io/jenkins/plugins/sample/DxRunListener.java:41-70 | The head branch, target, commit and PR number from the SCM revision; stated by `EventScmFields`. |
| RunListener.EventScmFields | src/main/java/io/jenkins/plugins/sample/DxRunListener.java:41-70 | Target and PR id come only from a change-request head. The head branch is the stripped head name. Without a revision, branch and commit are empty. |
| RunListener.CompletedEvent | src/main/java/io/jenkins/plugins/sample/DxRunListener.java:27-176 | Something is sent exactly when the plugin is configured, a repository name can be derived, and that name is not denied. |
| RunListener.EventTimes | src/main/java/io/jenkins/plugins/sample/DxRunListener.java:117-118 | `started_at` and `finished_at` are the run's bounds in whole seconds, in order when the duration is non-negative. |
| RunListener.ReferenceIdShape | src/main/java/io/jenkins/plugins/sample/DxRunListener.java:136 | The reference id is the job name, then ` #`, then the decimal digits of the run number: they read back as that number, with no leading zero. |
| RunListener.ReferenceId | src/main/java/io/jenkins/plugins/sample/DxRunListener.java:136 | `jobName + " #" + run.getNumber()`; stated by `ReferenceIdShape`. |
| RunListener.PipelineName | src/main/java/io/jenkins/plugins/sample/DxRunListener.java:132-135 | The pipeline name is never empty: the job name, or `jenkins-` followed by it when it is empty. |
| RunListener.ScenarioReferenceId | src/main/java/io/jenkins/plugins/sample/DxRunListener.java:136 | `example/job` run 42 has reference id `example/job #42`. |
| RunListener.ScenarioRepositoryUrl | src/main/java/io/jenkins/plugins/sample/DxRunListener.java:233-242 | An environment without GIT_URL variables gives `""`. |
| RunListener.EmptyNameNotDenied | src/main/java/io/jenkins/plugins/sample/DxRunListener.java:215-217 | The empty name is never denied. |
| RunListener.EndToEndScenario | src/main/java/io/jenkins/plugins/sample/DxRunListener.java:115-169 | A successful run with no SCM or author data is sent with these exact values. |
| RunListener.EndToEndPayload | src/main/java/io/jenkins/plugins/sample/DxRunListener.java:151-169 | That run's payload has neither `base_branch` nor `pr_number`, and has the expected times, id, status and source. |
| RunListener.PayloadOf | src/main/java/io/jenkins/plugins/sample/DxRunListener.java:151-169 | Twelve keys are always put. `base_branch` and `pr_number` are present exactly when non-empty. |
| RunListener.JsonNamesDistinct | src/main/java/io/jenkins/plugins/sample/DxRunListener.java:151-169 | Distinct payload keys have distinct JSON names, so the key datatype loses nothing of the JSON object. |
| RunListener.BuildEvent | src/main/java/io/jenkins/plugins/sample/DxRunListener.java:36-137 | With the plugin configured, the statements, in the source's order (URL, SCM and email and times, name, denylist, names), compute `CompletedEvent`. |
| RunListener.ReadRun | src/main/java/io/jenkins/plugins/sample/DxRunListener.java:37-122 | The SCM block, the email block, the times and the status compute `RunValuesOf`. |
| RunListener.NameEvent | src/main/java/io/jenkins/plugins/sample/DxRunListener.java:132-137 | The pipeline name, reference id and source id, with the values read, make up `EventFrom`. |
| RunListener.RunValuesOf | src/main/java/io/jenkins/plugins/sample/DxRunListener.java:37-122 | What is read from the run before its repository name: SCM fields, author address, times in seconds and status. |
| RunListener.EventFrom | src/main/java/io/jenkins/plugins/sample/DxRunListener.java:132-169 | The event that the payload is put together from. |
| RunListener.EventOf | src/main/java/io/jenkins/plugins/sample/DxRunListener.java:36-137 | The event of a run once the repository name and URL are known; its fields are stated by `EventTimes`, `EventScmFields` and `ReferenceIdShape`. |
| RunListener.AssemblePayload | src/main/java/io/jenkins/plugins/sample/DxRunListener.java:151-169 | The successive `put` calls build `PayloadOf`. |
| RunListener.OnCompleted | src/main/java/io/jenkins/plugins/sample/DxRunListener.java:27-176 | Nothing is sent, and the cache is untouched, exactly when `CompletedEvent` is None. Otherwise the payload of that event is sent, with the label the lookup gives for the current host against the (lazily built) table. |

## Left out

- Logging, `System.out`, the sample-mapping debug loop (HostnameMappingService.java:115-126) and the host-name debug block (DxRunListener.java:143-149) are left out. They have no effect on the payload.
- Sending the payload (`DxDataSender`) and persisting the configuration (`load`, `save`, `configure`) are left out. `OnCompleted` returns the payload it would send.
- JSON serialization and key order are left out. The payload is a map from a key datatype; `JsonName` gives each key's JSON name, and `JsonNamesDistinct` shows no two keys share one.
- Concurrency is not modelled: `synchronized`, `volatile`, and two threads racing on the lazy initialization.
- Jenkins APIs become inputs of the record `Run`: `getEnvironment`, `MailAddressResolver.resolve`, `User.getById`, and the SCM revision. The local host name and the HOSTNAME variable are inputs of `Host`. The CSV resource is `Resource`, with the index at which a read fails.
- RunListener.MapResult: only the five `Result` constants are modelled. Any other `Result` value would also map to "failure".
- RunListener.StripGitSuffix: Java's `$` also matches before a final line terminator. The model strips only a literal trailing `.git`.
- JavaText.ToLower: only ASCII letters are lower-cased. Java's locale-dependent Unicode case mapping is not modelled.
- Null names from the SCM API and `firstNonEmpty`'s null-array branch are not modelled. The model passes strings and a fixed list of three candidates.
- `long` overflow in the time arithmetic and the `int` width of the run number are not modelled. Integers are unbounded.
- `DxGlobalConfiguration.get()` returning null is the `config == null` case of `OnCompleted`. The Jenkins extension lookup itself is not part of this model.
