# Product names, descriptors and application directories

This is a Dafny model of two small Rust crates that give an application its identity and a place on disk.

- **libproduct** defines `ProductName`. A name has a base, an ordered list of extensions, a fallback version and an optional build record.
  - `name()` is the base followed by `.ext` for each extension.
  - `version()` prefers the build record's package version.
  - `descriptor(fmt)` fills `{KEY}` placeholders in a format string. It does this with a fixed chain of `str::replace` calls.
  - There are seven preset format strings.
  - One process-wide name can be set once (`set_global`) and read back (`global`).
- **libpath** derives application directories from the global name.
  - It takes a platform directory (one of 19 kinds), joins it with the product name and creates the directory if it does not exist.
  - On top of that sit the `configs` and `logs` roots, a module's `.toml` configuration file and a timestamped `.json` log file.

Files:

- `Wrappers.dfy`: `Option` and `Result`.
- `Text.dfy`: the string operations the code relies on.
  - Rust's `str::replace` is leftmost and non-overlapping, and the text it inserts is not rescanned.
  - `trim`, `join` and the decimal rendering of integers.
- `Substitution.dfy`: a chain of replace calls over a format string seen as text pieces and `{KEY}` tokens. It proves that the chain equals one lookup per token when no value put in for a token of the template contains a brace.
- `Formats.dfy`: the seven preset format strings, copied character for character.
- `Product.dfy`: `ProductName`, the build record, the key catalogue, `descriptor`, and what it produces for every preset, with and without a build record.
- `Registry.dfy`: the set-once global cell, as a class.
- `Paths.dfy`: the filesystem as a class over a map from paths to entry kinds, `mkdir_if_not_exists`, the `dirs::*` family, `configs_root`, `config_path`, `logs_root`, `log_path` and `epoch`.

**The descriptor is sequential.** `descriptor` replaces one key after another over the whole string. A value put in by an earlier key can therefore be expanded by a later key. One example is a name that spells `{VERSION}`. It is not a single pass over the format string. The model follows the code: `Product.Descriptor` is a left fold of `Text.Replace` over the keys in the order of the calls.
- `Product.NameIsExpandedByLaterKeys` exhibits the difference from a single pass.
- `Product.DescriptorIsSinglePass` proves that the two readings agree whenever no value the format asks for contains `{`.

Two more details follow the code:
- The no-build branch never replaces `{GIT_DIRTY_STAR}`.
- `DEFAULT_DIRTY` has no space before `{GIT_DIRTY_STAR}`, although the doc comment above it shows one.

Platform lookups, the filesystem and the clock are parameters:
- The `dirs` crate becomes a function from `DirKind` to an optional path.
- The filesystem becomes a `Paths.FileSystem` object whose `entries` map holds the paths.
- The clock becomes a number of nanoseconds since the Unix epoch.
- The `expect` calls of libpath become error values (`Paths.PathError`) carrying the same message.

## Model

| member | source | states |
|---|---|---|
| Text.Replace | libproduct/src/lib.rs:132-180 | `str::replace` keeps the length when the replacement is as long as the pattern, and its result holds only characters of the input or the replacement |
| Text.ReplaceAbsent | libproduct/src/lib.rs:132-180 | `str::replace` leaves a string that does not contain the pattern unchanged |
| Text.ReplaceLeftmost | libproduct/src/lib.rs:132-180 | `str::replace` replaces the leftmost occurrence and continues after it without rescanning the inserted text |
| Text.ReplaceSkip | libproduct/src/lib.rs:132-180 | a prefix in which no occurrence of the pattern starts passes through `str::replace` untouched |
| Text.ReplaceWhole | libproduct/src/lib.rs:132-180 | replacing a pattern in the pattern itself yields exactly the replacement |
| Text.ReplaceSelf | libproduct/src/lib.rs:132-180 | replacing a pattern by itself is the identity |
| Text.Trim | libproduct/src/lib.rs:146 | `trim` never lengthens a string, and a non-empty result neither starts nor ends with whitespace |
| Text.TrimSlice | libproduct/src/lib.rs:146 | `trim` cuts a whitespace-only prefix and suffix, and neither end of its result is whitespace |
| Text.TrimIdempotent | libproduct/src/lib.rs:146 | trimming twice equals trimming once |
| Text.TrimAvoids | libproduct/src/lib.rs:146 | `trim` introduces no character that was not in its input |
| Text.Join | libproduct/src/lib.rs:149 | the joined tags start with the first tag |
| Text.JoinAvoids | libproduct/src/lib.rs:149 | a character in neither the tags nor the separator is not in the joined string |
| Text.SplitJoin | libproduct/src/lib.rs:149 | splitting the `,`-joined tags at `,` gives back the tags when the list is non-empty and no tag contains a comma (no tags join to `""`, which splits to one empty piece) |
| Text.NatToString | libproduct/src/lib.rs:153 | the decimal rendering of an integer is non-empty, all digits and has no leading zero |
| Text.ParseNatToString | libproduct/src/lib.rs:153 | reading the decimal rendering back gives the number |
| Text.NatToStringInjective | libproduct/src/lib.rs:160 | different numbers render differently |
| Substitution.ApplyAll | libproduct/src/lib.rs:132-180 | a chain of replace calls in which every step replaces a non-empty key by itself leaves the string unchanged |
| Substitution.Lookup | libproduct/src/lib.rs:132-161 | the first binding for a key: absent exactly when no binding has that key, and otherwise one of the bindings' values |
| Substitution.ApplyAllIsLookup | libproduct/src/lib.rs:132-183 | a chain of replace calls over brace-free text and tokens, with token keys, equals resolving each token once by lookup, provided the values of the keys that occur as tokens are brace-free |
| Substitution.ApplyAllBraceFree | libproduct/src/lib.rs:129-184 | a chain of replace calls with token keys leaves a string without `{` unchanged |
| Substitution.ApplyAllToken | libproduct/src/lib.rs:129-184 | a single token stays as it is when no binding has it; otherwise it becomes the value of its first binding, run through the bindings after that one |
| Substitution.ApplyAllTokenOnce | libproduct/src/lib.rs:129-184 | a single token whose first binding's value has no `{` becomes exactly that value |
| Substitution.ReplaceAroundToken | libproduct/src/lib.rs:132-180 | one `str::replace` of a token key leaves any other token in place and acts on the text before and after it independently, since no occurrence of the key can run into the other token |
| Substitution.ApplyAllAroundToken | libproduct/src/lib.rs:129-184 | a chain of token keys none of which is a given token leaves that token in place and renders the text on each side as if it stood alone |
| Product.New | libproduct/src/lib.rs:73-84 | a new name has no extensions and keeps the base, version and build record given |
| Product.NameOfNew | libproduct/src/lib.rs:73-84 | the name of a new product name is its base |
| Product.With | libproduct/src/lib.rs:89-93 | `with(e)` appends `e` to the extensions and keeps base, version and build record |
| Product.NameWith | libproduct/src/lib.rs:89-93 | `with(e)` extends the name by `"." + e` |
| Product.DottedAppend | libproduct/src/lib.rs:186-193 | the `.ext` rendering of the extensions grows by one `.ext` per pushed extension, in order |
| Product.Name | libproduct/src/lib.rs:107-110 | the name starts with the base, and is the base when there are no extensions |
| Product.NameIsDottedJoin | libproduct/src/lib.rs:107-110 | the name is the base and the extensions joined with `.` |
| Product.NameOfTwoExtensions | libproduct/src/lib.rs:259-263 | `dev.thmsn.ext` with `app` then `another_ext` is named `dev.thmsn.ext.app.another_ext` |
| Product.Version | libproduct/src/lib.rs:113-118 | `version()` is either the own version field or the build record's package version |
| Product.VersionResolution | libproduct/src/lib.rs:113-118 | `version()` is the build record's package version when both are present, otherwise the own version field |
| Product.KeyNameIsUpperCase | libproduct/src/lib.rs:11-33 | every character of a catalogue key name lies between `A` and `_`, so no key name contains a brace |
| Product.PlaceholderInjective | libproduct/src/lib.rs:11-33 | two keys have the same placeholder exactly when they are the same key |
| Product.Value | libproduct/src/lib.rs:132-180 | without a build record every key other than the name and the version has the empty value, so only the name and the version can bring in a `{` |
| Product.BuildValue | libproduct/src/lib.rs:140-161 | the dirty markers are `dirty` or `*` or empty, the message is trimmed, and the commit count and the CPU count are decimal digits |
| Product.Descriptor | libproduct/src/lib.rs:129-184 | `descriptor` returns a format without `{` unchanged |
| Product.Bindings | libproduct/src/lib.rs:132-161 | the replace arguments are, position by position, each key's placeholder with its value, and all keys are tokens |
| Product.AllKeysWithBuild | libproduct/src/lib.rs:132-161 | with a build record the chain replaces every catalogue key |
| Product.KeysWithoutBuild | libproduct/src/lib.rs:162-181 | without a build record the chain replaces every key except `{GIT_DIRTY_STAR}` |
| Product.LookupChain | libproduct/src/lib.rs:132-180 | the first replacement for a key's placeholder is the key's value when the branch taken replaces it, and there is none otherwise |
| Product.ToPiecesOk | libproduct/src/lib.rs:129 | a format made of brace-free literal text, placeholders and unknown tokens is a well-formed template that spells the same string |
| Product.RenderIsTemplate | libproduct/src/lib.rs:129-184 | resolving each placeholder once, and keeping unknown tokens, equals the template lookup over the chain |
| Product.DescriptorIsSinglePass | libproduct/src/lib.rs:129-184 | when no value of a key the format asks for contains `{`, the descriptor keeps literal text and unknown tokens and resolves each placeholder exactly once |
| Product.DescriptorOfPlaceholder | libproduct/src/lib.rs:129-184 | a lone placeholder stays when its branch does not replace it; otherwise it becomes its value run through the later steps of the chain, which is the value itself when it has no `{` |
| Product.DescriptorKeepsPlainText | libproduct/src/lib.rs:129-184 | a format in which no catalogue placeholder occurs comes back unchanged |
| Product.DescriptorKeepsUnknownToken | libproduct/src/lib.rs:129-184 | a `{X}` token that is not a catalogue key comes back unchanged wherever it stands, with no condition on the surrounding text or the values, and the text on each side renders as if it stood alone |
| Product.DescriptorKeepsUnknownPlaceholder | libproduct/src/lib.rs:129-184 | between parts of a well-formed format whose used values have no `{`, an unknown `{X}` token comes back unchanged and the parts on each side render in one pass |
| Product.ClearedWithoutBuild | libproduct/src/lib.rs:162-181 | without a build record every key other than the name, the version and `{GIT_DIRTY_STAR}` becomes empty |
| Product.DirtyStarKeptWithoutBuild | libproduct/src/lib.rs:162-181 | without a build record `{GIT_DIRTY_STAR}` survives literally |
| Product.DescriptorWithBuild | libproduct/src/lib.rs:136-161 | with a build record a lone placeholder becomes its value run through the later steps of the chain, which is the value itself when it has no `{` |
| Product.DirtyMarkersWithBuild | libproduct/src/lib.rs:144-145 | `{GIT_DIRTY}` becomes `dirty` and `{GIT_DIRTY_STAR}` becomes `*` when the tree is dirty, both empty otherwise |
| Product.MessageWithBuild | libproduct/src/lib.rs:146 | `{GIT_MESSAGE}` becomes the trimmed message, or empty when there is none, and has no whitespace at either end |
| Product.TagsWithBuild | libproduct/src/lib.rs:149 | `{GIT_TAGS}` becomes the tags joined with `,`, and when there is at least one tag and none holds a `,`, splitting it at `,` gives back the tags |
| Product.CommitCountWithBuild | libproduct/src/lib.rs:151-154 | `{GIT_COMMIT_COUNT}` is empty without a count and otherwise the decimal digits that read back as the count |
| Product.CpusWithBuild | libproduct/src/lib.rs:160 | `{BUILD_CPUS}` is the decimal digits that read back as the CPU count |
| Formats.ShortText | libproduct/src/lib.rs:39 | `SHORT` is `{NAME}`, ` v`, `{VERSION}` |
| Formats.DefaultText | libproduct/src/lib.rs:42 | `DEFAULT` is `{NAME} v{VERSION}` followed by `({GIT_REF}@{GIT_HASH})` |
| Formats.DefaultDirtyText | libproduct/src/lib.rs:45 | `DEFAULT_DIRTY` is `DEFAULT` with `{GIT_DIRTY_STAR}` right after the hash, with no space |
| Formats.LongText | libproduct/src/lib.rs:48-49 | `LONG` is its placeholders and separators in order, as written |
| Formats.FullText | libproduct/src/lib.rs:52 | `FULL` is its placeholders and separators in order, as written |
| Formats.UserAgentText | libproduct/src/lib.rs:57 | `USER_AGENT` is `{NAME}/{VERSION} ({BUILD_OS}; {BUILD_ARCH})` piece by piece |
| Formats.GitRefShortText | libproduct/src/lib.rs:60 | `GIT_REF_SHORT` is `{GIT_REF}`, `@`, `{GIT_HASH}` |
| Product.ShortPreset | libproduct/src/lib.rs:39 | `SHORT` renders as the resolved name, `" v"` and the resolved version |
| Product.DefaultPreset | libproduct/src/lib.rs:42 | `DEFAULT` renders as name, version, branch and short hash around its literal text |
| Product.DefaultDirtyPreset | libproduct/src/lib.rs:45 | `DEFAULT_DIRTY` renders like `DEFAULT` with the dirty star directly after the hash, with no space |
| Product.LongPreset | libproduct/src/lib.rs:48-49 | `LONG` renders as its literal text around name, version, branch, hash, host, OS and OS version |
| Product.FullPreset | libproduct/src/lib.rs:52 | `FULL` renders as its literal text around name, version, branch, hash, dirty marker, author, host, long OS version and architecture |
| Product.UserAgentPreset | libproduct/src/lib.rs:57 | `USER_AGENT` renders as `name/version (os; arch)` |
| Product.GitRefShortPreset | libproduct/src/lib.rs:60 | `GIT_REF_SHORT` renders as `branch@hash` |
| Product.ResolvedWithoutBuild | libproduct/src/lib.rs:162-181 | without a build record a placeholder resolves to the name, the version, itself for `{GIT_DIRTY_STAR}`, and empty otherwise |
| Product.ResolvedWithBuild | libproduct/src/lib.rs:136-161 | with a build record every placeholder resolves to its value |
| Product.ShortWithoutBuild | libproduct/src/lib.rs:162-181 | without a build record `SHORT` is `name() + " v" + version()` |
| Product.DefaultWithoutBuild | libproduct/src/lib.rs:162-181 | without a build record `DEFAULT` is `name() + " v" + version() + " (@)"` |
| Product.DefaultDirtyWithoutBuild | libproduct/src/lib.rs:162-181 | without a build record `DEFAULT_DIRTY` keeps `{GIT_DIRTY_STAR}` literally: `name v version (@{GIT_DIRTY_STAR})` |
| Product.LongWithoutBuild | libproduct/src/lib.rs:162-181 | without a build record `LONG` is the name and version followed by its literal separators with every git and build slot empty |
| Product.FullWithoutBuild | libproduct/src/lib.rs:162-181 | without a build record `FULL` is the name and version followed by its literal separators with every git and build slot empty |
| Product.UserAgentWithoutBuild | libproduct/src/lib.rs:162-181 | without a build record `USER_AGENT` is `name/version (; )` |
| Product.GitRefShortWithoutBuild | libproduct/src/lib.rs:162-181 | without a build record `GIT_REF_SHORT` is `@`, for any name and version |
| Product.DefaultDirtyWithBuild | libproduct/src/lib.rs:136-161 | with a build record `DEFAULT_DIRTY` is `name v version (branch@hash*)`, with the star only when dirty |
| Product.NameIsExpandedByLaterKeys | libproduct/src/lib.rs:132-134 | a name spelling `{VERSION}` is expanded by the later version step, whereas a single pass would keep it |
| Registry.Stored | libproduct/src/lib.rs:95-105 | a set-once cell holds nothing before any write and the first write afterwards |
| Registry.StoredIgnoresLaterWrites | libproduct/src/lib.rs:95-100 | writes after the first do not change what the cell holds |
| Registry.GlobalProductName.constructor | libproduct/src/lib.rs:9 | the global cell starts empty |
| Registry.GlobalProductName.SetGlobal | libproduct/src/lib.rs:95-100 | `set_global` succeeds exactly when the cell is empty and then stores the name; otherwise it fails with `Product name has already been set` and the cell is unchanged |
| Registry.GlobalProductName.Global | libproduct/src/lib.rs:102-105 | `global()` is empty before any successful set and the first stored name afterwards |
| Paths.NotFoundMessagesDistinct | libpath/src/lib.rs:76-104 | a `dirs::*` function whose platform lookup fails panics with a message naming its own kind, distinct from every other kind's |
| Paths.Mkdir | libpath/src/lib.rs:33-39 | returns the path unchanged; it then exists; if it did not exist before, it and all its ancestors are directories; nothing present changes; it fails, changing nothing, exactly when the path is missing and an ancestor is a file; an existing path, even a file, leaves the tree as it is |
| Paths.MkdirIdempotent | libpath/src/lib.rs:34-36 | calling `mkdir_if_not_exists` twice has the effect of calling it once |
| Paths.MkdirWellFormed | libpath/src/lib.rs:37 | `create_dir_all` keeps every ancestor of every entry a directory |
| Paths.EnsuredTrans | libpath/src/lib.rs:122-124 | making sure of a directory and then of a path below it makes sure of the lower path and leaves the upper one present |
| Paths.FileSystem.MkdirIfNotExists | libpath/src/lib.rs:33-39 | the new entries and the result are those of `Paths.Mkdir` on the old entries |
| Paths.Segment | libpath/src/lib.rs:73-74 | the product segment is the global name, or the name of the default product `dev.thmsn.unspecified` when none is set |
| Paths.DirRun | libpath/src/lib.rs:72-79 | a `dirs::*` function fails when the platform has no directory of its kind; otherwise it returns that directory joined with the product segment, which then exists |
| Paths.DirRunIdempotent | libpath/src/lib.rs:72-79 | calling a `dirs::*` function again on the resulting filesystem returns the same result and changes nothing |
| Paths.AppDir | libpath/src/lib.rs:72-104 | the `dirs::*` function of a kind changes the filesystem and returns as `Paths.DirRun` says, for the global name read from the cell |
| Paths.DataDirRun | libpath/src/lib.rs:122-124 | the shared body of `configs_root` and `logs_root`: the local data directory joined with the product segment and the leaf; both directories exist afterwards, and a missing local data directory is an error |
| Paths.DataDirRunIdempotent | libpath/src/lib.rs:122-124 | calling `configs_root` or `logs_root` again returns the same result and changes nothing |
| Paths.ConfigsRootRun | libpath/src/lib.rs:122-124 | `configs_root` is the local data directory joined with the product segment and `configs`, which exists afterwards; a missing local data directory is an error |
| Paths.ConfigsRoot | libpath/src/lib.rs:122-124 | `configs_root` changes the filesystem and returns as `Paths.DataDirRun` says for `configs` |
| Paths.ConfigFileName | libpath/src/lib.rs:143 | a module's configuration file is the module name followed by `.toml` |
| Paths.ConfigPathRun | libpath/src/lib.rs:140-144 | `config_path(m)` is `configs_root` joined with `m + ".toml"`; the configuration directory exists and the file itself is not created |
| Paths.ConfigPathRunIdempotent | libpath/src/lib.rs:140-144 | calling `config_path` again for the same module returns the same path and changes nothing |
| Paths.ConfigPath | libpath/src/lib.rs:140-144 | `config_path` changes the filesystem and returns as `Paths.ConfigPathRun` says |
| Paths.LogsRootRun | libpath/src/lib.rs:159-161 | `logs_root` is the local data directory joined with the product segment and `logs`, which exists afterwards; a missing local data directory is an error |
| Paths.LogsRoot | libpath/src/lib.rs:159-161 | `logs_root` changes the filesystem and returns as `Paths.DataDirRun` says for `logs` |
| Paths.Epoch | libpath/src/lib.rs:48-53 | `epoch` fails exactly for a clock before the Unix epoch and otherwise gives the whole seconds elapsed |
| Paths.LogFileName | libpath/src/lib.rs:183 | a log file name is `log_`, decimal digits that read back as the seconds, and `.json` |
| Paths.LogFileNamesDistinct | libpath/src/lib.rs:163-170 | log files started in different seconds have different names |
| Paths.LogPathRun | libpath/src/lib.rs:180-184 | `log_path` is `logs_root` joined with `log_<seconds>.json`; the log directory exists and the file is not created; a clock before the epoch fails only after the directories are made |
| Paths.LogPathRunIdempotent | libpath/src/lib.rs:180-184 | calling `log_path` again at the same instant returns the same path and changes nothing |
| Paths.LogPath | libpath/src/lib.rs:180-184 | `log_path` changes the filesystem and returns as `Paths.LogPathRun` says |

## Left out

- Thread safety: the `OnceLock` behind the global name and concurrent `create_dir_all` calls are modelled sequentially.
- The `tracing` instrumentation and the generated documentation in `wrap_dirs!`: they do not change any result.
- The `product_name!` macro and its `LazyLock` plumbing: they only build a `ProductName` with `new` and `with`. Only the base of the default product name is read.
- The panic `Failed to load build info` of `product_name!` (libproduct/src/lib.rs:207) is not modelled. The default product name is built by that macro. `map_or` at libpath/src/lib.rs:74 evaluates its default eagerly, so every `dirs::*` call builds it, even when a global name is set, and a failed build-record load panics there. `Paths.Segment` never fails.
- Loading the build record from the build environment: `BuildInfo` is an input holding only the fields that `descriptor` and `version` read.
- The `dirs` crate, the real filesystem and the system clock: they are parameters.
- I/O failures other than a file standing where a directory is needed, such as permissions or a full disk.
- `PathBuf::join` of a segment that holds a separator, is absolute, is empty, or is `.` or `..`: every segment is one new path component. Rust's `join("")` and `join(".")` stay in the directory joined to and create nothing, and `join("..")` leaves it. The model instead appends such a segment as a new component and creates it. This matters for a global product name that is empty, `.` or `..`.
- `trim` covers ASCII whitespace only, not all of Unicode's. `to_string` on integers is plain decimal.
- The human-readable memory size is an opaque string.
- Product.ShortPreset: stated only when the values of the keys `SHORT` uses (the name and the version) contain no `{`. A value with a brace is rescanned by later keys; `Product.NameIsExpandedByLaterKeys` shows one such case.
- Product.DefaultPreset: stated only when the values of the keys `DEFAULT` uses (the name, the version, the branch and the short hash) contain no `{`. A value with a brace is rescanned by later keys; `Product.NameIsExpandedByLaterKeys` shows one such case.
- Product.DefaultDirtyPreset: stated only when the values of the keys `DEFAULT_DIRTY` uses (the name, the version, the branch, the short hash and the dirty star) contain no `{`. A value with a brace is rescanned by later keys; `Product.NameIsExpandedByLaterKeys` shows one such case.
- Product.LongPreset: stated only when the values of the keys `LONG` uses (the name, the version, the branch, the short hash, the host, the OS name and the OS version) contain no `{`. A value with a brace is rescanned by later keys; `Product.NameIsExpandedByLaterKeys` shows one such case.
- Product.FullPreset: stated only when the values of the keys `FULL` uses (the name, the version, the branch, the short hash, the dirty marker, the author, the host, the long OS version and the architecture) contain no `{`. A value with a brace is rescanned by later keys; `Product.NameIsExpandedByLaterKeys` shows one such case.
- Product.UserAgentPreset: stated only when the values of the keys `USER_AGENT` uses (the name, the version, the OS name and the architecture) contain no `{`. A value with a brace is rescanned by later keys; `Product.NameIsExpandedByLaterKeys` shows one such case.
- Product.GitRefShortPreset: stated only when the values of the keys `GIT_REF_SHORT` uses (the branch and the short hash) contain no `{`. A value with a brace is rescanned by later keys; `Product.NameIsExpandedByLaterKeys` shows one such case.
- Product.ShortWithoutBuild: stated only for a name and a version without `{`.
- Product.DefaultWithoutBuild: stated only for a name and a version without `{`.
- Product.DefaultDirtyWithoutBuild: stated only for a name and a version without `{`.
- Product.LongWithoutBuild: stated only for a name and a version without `{`.
- Product.FullWithoutBuild: stated only for a name and a version without `{`.
- Product.UserAgentWithoutBuild: stated only for a name and a version without `{`.
- Product.DefaultDirtyWithBuild: stated only for a name, a version, a branch and a short hash without `{`.
- Product.MessageWithBuild: stated only for a commit message without `{`.
- Product.TagsWithBuild: stated only for tags without `{`; the split round trip also needs at least one tag and no `,` in any tag, since `join` cannot be undone otherwise.
- Paths.DataDirRun: after a failure it only says the error is `Failed to create directory`. The directories made before the failure are given by the function itself.
- Paths.LogFileNamesDistinct: the documented chronological ordering of log names is not stated. It fails in string order when the number of digits grows.
