/**
 * Application directories (libpath/src/lib.rs): the "exists, otherwise
 * `create_dir_all`" policy of `mkdir_if_not_exists`, the `dirs::*` family that
 * puts the product name under a platform directory, the `configs` and `logs`
 * roots, and the file names placed in them.
 *
 * The filesystem is a map from paths (sequences of segments) to entry kinds;
 * the platform directory lookup is a function from directory kind to an
 * optional path, and the clock is a number of nanoseconds since the Unix epoch.
 */
module Paths {
  import opened Wrappers
  import opened Text
  import opened Product
  import opened Registry

  // ---------------------------------------------------------------------
  // Paths and the filesystem
  // ---------------------------------------------------------------------

  /** A path as its segments; `[]` is the root. */
  type Path = seq<string>

  datatype EntryKind = Dir | File

  type Tree = map<Path, EntryKind>

  /** `Path::exists`: the root, or any entry, directory or not. */
  predicate Exists(fs: Tree, p: Path) {
    p == [] || p in fs
  }

  predicate IsDir(fs: Tree, p: Path) {
    p in fs && fs[p] == Dir
  }

  /** A tree as a filesystem has it: every proper ancestor of an entry is a directory. */
  predicate WellFormed(fs: Tree) {
    forall p :: p in fs ==> p != [] && forall i :: 1 <= i < |p| ==> IsDir(fs, p[..i])
  }

  /** The non-root ancestors of `p`, and `p` itself. */
  function Prefixes(p: Path): set<Path> {
    set i | 1 <= i <= |p| :: p[..i]
  }

  /** `create_dir_all` fails when an ancestor of `p` is a file. */
  predicate Blocked(fs: Tree, p: Path) {
    exists i :: 1 <= i < |p| && p[..i] in fs && fs[p[..i]] == File
  }

  /**
   * `after` is `before` with `p` made sure to exist: `p` exists, nothing that was
   * there changed, everything new is a directory on the way to `p`, and when `p`
   * did not exist it and all its ancestors are now directories.
   */
  predicate Ensured(before: Tree, after: Tree, p: Path) {
    && Exists(after, p)
    && (forall q :: q in before ==> q in after && after[q] == before[q])
    && (forall q :: q in after && q !in before ==> q in Prefixes(p) && after[q] == Dir)
    && (!Exists(before, p) ==> forall i :: 1 <= i <= |p| ==> IsDir(after, p[..i]))
  }

  // ---------------------------------------------------------------------
  // Errors
  // ---------------------------------------------------------------------

  /** The 19 platform directories the `dirs::*` family wraps. */
  datatype DirKind =
    | Audio | Cache | Config | ConfigLocal | Data | DataLocal | Desktop | Document | Download
    | Executable | Font | Home | Picture | Preference | Public | Runtime | State | Template | Video

  /** The text each `dirs::*` function names its directory by. */
  function DebugText(kind: DirKind): string {
    match kind
    case Audio => "audio directory"
    case Cache => "cache directory"
    case Config => "config directory"
    case ConfigLocal => "local config directory"
    case Data => "data directory"
    case DataLocal => "local data directory"
    case Desktop => "desktop directory"
    case Document => "document directory"
    case Download => "download directory"
    case Executable => "executable directory"
    case Font => "font directory"
    case Home => "home directory"
    case Picture => "picture directory"
    case Preference => "preference directory"
    case Public => "public directory"
    case Runtime => "runtime directory"
    case State => "state_dir"
    case Template => "template_dir"
    case Video => "video_dir"
  }

  /** The three ways the source panics, as values. */
  datatype PathError =
    | NotFound(kind: DirKind)
    | CreateFailed
    | BeforeEpoch

  /** The panic message of each error. */
  function Message(e: PathError): string {
    match e
    case NotFound(kind) => "cant find " + DebugText(kind)
    case CreateFailed => "Failed to create directory"
    case BeforeEpoch => "Why are you in the past?"
  }

  /** A failed platform lookup names its kind: different kinds panic with different messages. */
  lemma NotFoundMessagesDistinct(a: DirKind, b: DirKind)
    requires a != b
    ensures Message(NotFound(a)) != Message(NotFound(b))
  {
    var prefix := "cant find ";
    assert Message(NotFound(a))[|prefix|..] == DebugText(a);
    assert Message(NotFound(b))[|prefix|..] == DebugText(b);
  }

  // ---------------------------------------------------------------------
  // mkdir_if_not_exists
  // ---------------------------------------------------------------------

  /** A filesystem after an operation, and what the operation returned. */
  datatype Run = Run(fs: Tree, out: Result<Path, PathError>)

  /** `create_dir_all` on a path that does not exist and is not blocked: every missing ancestor becomes a directory. */
  function CreateAll(fs: Tree, p: Path): Tree {
    fs + map q | q in Prefixes(p) && q !in fs :: Dir
  }

  /** `mkdir_if_not_exists`: an existing path is left alone, even a file; otherwise `create_dir_all`. */
  function Mkdir(fs: Tree, p: Path): (r: Run)
    ensures r.out.Err? <==> !Exists(fs, p) && Blocked(fs, p)
    ensures r.out.Err? ==> r == Run(fs, Err(CreateFailed))
    ensures r.out.Ok? ==> r.out.value == p && Ensured(fs, r.fs, p)
    ensures Exists(fs, p) ==> r == Run(fs, Ok(p))
  {
    if Exists(fs, p) then Run(fs, Ok(p))
    else if Blocked(fs, p) then Run(fs, Err(CreateFailed))
    else
      var after := CreateAll(fs, p);
      assert forall i :: 1 <= i <= |p| ==> p[..i] in Prefixes(p);
      assert p == p[..|p|];
      Run(after, Ok(p))
  }

  /** Calling `mkdir_if_not_exists` twice has the effect of calling it once. */
  lemma MkdirIdempotent(fs: Tree, p: Path)
    ensures Mkdir(Mkdir(fs, p).fs, p) == Run(Mkdir(fs, p).fs, Mkdir(fs, p).out)
  {
  }

  /** `mkdir_if_not_exists` keeps a well-formed tree well-formed. */
  lemma MkdirWellFormed(fs: Tree, p: Path)
    requires WellFormed(fs)
    ensures WellFormed(Mkdir(fs, p).fs)
  {
    var after := Mkdir(fs, p).fs;
    forall q | q in after
      ensures q != [] && forall i :: 1 <= i < |q| ==> IsDir(after, q[..i])
    {
      if q !in fs {
        assert q in Prefixes(p);
        var j :| 1 <= j <= |p| && q == p[..j];
        forall i | 1 <= i < |q| ensures IsDir(after, q[..i]) {
          assert q[..i] == p[..i];
        }
      }
    }
  }

  /** Making sure of a path and then of a path below it makes sure of both. */
  lemma EnsuredTrans(a: Tree, b: Tree, c: Tree, p: Path, q: Path)
    requires Ensured(a, b, p) && Ensured(b, c, q)
    requires |p| <= |q| && q[..|p|] == p
    ensures Ensured(a, c, q)
    ensures Exists(c, p)
  {
    forall x | x in c && x !in a ensures x in Prefixes(q) && c[x] == Dir {
      if x in b {
        assert x in Prefixes(p);
        var j :| 1 <= j <= |p| && x == p[..j];
        assert x == q[..j];
      }
    }
    if !Exists(a, q) && Exists(b, q) {
      assert q in Prefixes(p);
      assert q == p;
    }
  }

  /** The filesystem as the program sees it. */
  class FileSystem {
    var entries: Tree

    constructor (entries0: Tree)
      ensures entries == entries0
    {
      entries := entries0;
    }

    /** `MkdirIfNotExists::mkdir_if_not_exists` for `PathBuf`; a failed `create_dir_all` is an error result. */
    method MkdirIfNotExists(p: Path) returns (r: Result<Path, PathError>)
      modifies this
      ensures entries == Mkdir(old(entries), p).fs
      ensures r == Mkdir(old(entries), p).out
    {
      if Exists(entries, p) {
        return Ok(p);
      }
      if Blocked(entries, p) {
        return Err(CreateFailed);
      }
      entries := CreateAll(entries, p);
      r := Ok(p);
    }
  }

  // ---------------------------------------------------------------------
  // The product segment and the dirs::* family
  // ---------------------------------------------------------------------

  /** The base of `DEFAULT_PRODUCT_NAME`, used when no global name is set. */
  const DEFAULT_SEGMENT := "dev.thmsn.unspecified"

  /** The segment put under every platform directory: the global name, or the default one. */
  function Segment(global: Option<ProductName>): (s: string)
    ensures global.None? ==> s == Name(New(DEFAULT_SEGMENT, "", None))
    ensures global.Some? ==> s == Name(global.value)
  {
    NameOfNew(DEFAULT_SEGMENT, "", None);
    match global
    case None => DEFAULT_SEGMENT
    case Some(n) => Name(n)
  }

  /** A `dirs::*` function, given the platform lookup's answer `base` and the product segment. */
  function DirRun(fs: Tree, kind: DirKind, base: Option<Path>, segment: string): (r: Run)
    ensures base.None? ==> r == Run(fs, Err(NotFound(kind)))
    ensures base.Some? && r.out.Ok? ==> r.out.value == base.value + [segment] && Ensured(fs, r.fs, r.out.value)
    ensures base.Some? && r.out.Err? ==> r == Run(fs, Err(CreateFailed))
  {
    match base
    case None => Run(fs, Err(NotFound(kind)))
    case Some(b) => Mkdir(fs, b + [segment])
  }

  /** A second call of a `dirs::*` function returns what the first did and changes nothing more. */
  lemma DirRunIdempotent(fs: Tree, kind: DirKind, base: Option<Path>, segment: string)
    ensures var r := DirRun(fs, kind, base, segment);
            DirRun(r.fs, kind, base, segment) == r
  {
    if base.Some? {
      MkdirIdempotent(fs, base.value + [segment]);
    }
  }

  /** Everything on the way to `p` is no longer than `p`, so no child of `p` is among it. */
  lemma ChildNotPrefix(p: Path, x: string)
    ensures p + [x] !in Prefixes(p)
  {
    forall q | q in Prefixes(p) ensures |q| <= |p| {
      var j :| 1 <= j <= |p| && q == p[..j];
    }
  }

  /**
   * `configs_root` and `logs_root`: the directory `leaf` under the local data
   * directory of the product, made with every directory on the way.
   */
  function DataDirRun(fs: Tree, dataLocal: Option<Path>, segment: string, leaf: string): (r: Run)
    ensures dataLocal.None? ==> r == Run(fs, Err(NotFound(DataLocal)))
    ensures r.out.Ok? ==>
              && r.out.value == dataLocal.value + [segment, leaf]
              && Ensured(fs, r.fs, r.out.value)
              && Exists(r.fs, dataLocal.value + [segment])
    ensures dataLocal.Some? && r.out.Err? ==> r.out.error == CreateFailed
  {
    var d := DirRun(fs, DataLocal, dataLocal, segment);
    if d.out.Err? then d
    else
      var r := Mkdir(d.fs, d.out.value + [leaf]);
      assert r.out.Ok? ==> Ensured(fs, r.fs, r.out.value) && Exists(r.fs, d.out.value) by {
        if r.out.Ok? {
          EnsuredTrans(fs, d.fs, r.fs, d.out.value, r.out.value);
        }
      }
      assert dataLocal.value + [segment] + [leaf] == dataLocal.value + [segment, leaf];
      r
  }

  /** A second call of `configs_root` or `logs_root` returns what the first did and changes nothing more. */
  lemma DataDirRunIdempotent(fs: Tree, dataLocal: Option<Path>, segment: string, leaf: string)
    ensures var r := DataDirRun(fs, dataLocal, segment, leaf);
            DataDirRun(r.fs, dataLocal, segment, leaf) == r
  {
    var d := DirRun(fs, DataLocal, dataLocal, segment);
    DirRunIdempotent(fs, DataLocal, dataLocal, segment);
    if d.out.Ok? {
      var r := Mkdir(d.fs, d.out.value + [leaf]);
      MkdirIdempotent(d.fs, d.out.value + [leaf]);
      if r.out.Ok? {
        assert Exists(r.fs, d.out.value);
        assert DirRun(r.fs, DataLocal, dataLocal, segment) == Run(r.fs, d.out);
      }
    }
  }

  /** `configs_root`. */
  function ConfigsRootRun(fs: Tree, dataLocal: Option<Path>, segment: string): (r: Run)
    ensures dataLocal.None? ==> r == Run(fs, Err(NotFound(DataLocal)))
    ensures r.out.Ok? ==> r.out.value == dataLocal.value + [segment, "configs"] && Ensured(fs, r.fs, r.out.value)
    ensures dataLocal.Some? && r.out.Err? ==> r.out.error == CreateFailed
  {
    DataDirRun(fs, dataLocal, segment, "configs")
  }

  /** The file name `config_path` gives a module's configuration. */
  function ConfigFileName(unit: string): (r: string)
    ensures |r| == |unit| + 5 && r[..|unit|] == unit && r[|unit|..] == ".toml"
  {
    unit + ".toml"
  }

  /** `config_path`: the module's `.toml` file in `configs_root`; the file itself is not created. */
  function ConfigPathRun(fs: Tree, dataLocal: Option<Path>, segment: string, unit: string): (r: Run)
    ensures r.fs == ConfigsRootRun(fs, dataLocal, segment).fs
    ensures r.out.Ok? <==> ConfigsRootRun(fs, dataLocal, segment).out.Ok?
    ensures r.out.Ok? ==>
              && r.out.value == dataLocal.value + [segment, "configs", ConfigFileName(unit)]
              && Ensured(fs, r.fs, dataLocal.value + [segment, "configs"])
              && (r.out.value in r.fs ==> r.out.value in fs)
    ensures r.out.Err? ==> r.out == ConfigsRootRun(fs, dataLocal, segment).out
  {
    var root := ConfigsRootRun(fs, dataLocal, segment);
    if root.out.Err? then root
    else
      var again := Mkdir(root.fs, root.out.value);
      var file := again.out.value + [ConfigFileName(unit)];
      ChildNotPrefix(root.out.value, ConfigFileName(unit));
      Run(again.fs, Ok(file))
  }

  /** A second call of `config_path` for the same module returns the same path and changes nothing more. */
  lemma ConfigPathRunIdempotent(fs: Tree, dataLocal: Option<Path>, segment: string, unit: string)
    ensures var r := ConfigPathRun(fs, dataLocal, segment, unit);
            ConfigPathRun(r.fs, dataLocal, segment, unit) == r
  {
    DataDirRunIdempotent(fs, dataLocal, segment, "configs");
  }

  /** `logs_root`. */
  function LogsRootRun(fs: Tree, dataLocal: Option<Path>, segment: string): (r: Run)
    ensures dataLocal.None? ==> r == Run(fs, Err(NotFound(DataLocal)))
    ensures r.out.Ok? ==> r.out.value == dataLocal.value + [segment, "logs"] && Ensured(fs, r.fs, r.out.value)
    ensures dataLocal.Some? && r.out.Err? ==> r.out.error == CreateFailed
  {
    DataDirRun(fs, dataLocal, segment, "logs")
  }

  // ---------------------------------------------------------------------
  // epoch and log_path
  // ---------------------------------------------------------------------

  const NANOS_PER_SECOND: nat := 1_000_000_000

  /** `epoch`: whole seconds since the Unix epoch, or an error for a clock before it. */
  function Epoch(nanos: int): (r: Result<nat, PathError>)
    ensures r.Err? <==> nanos < 0
    ensures r.Err? ==> r.error == BeforeEpoch
    ensures r.Ok? ==> r.value * NANOS_PER_SECOND <= nanos < (r.value + 1) * NANOS_PER_SECOND
  {
    if nanos < 0 then Err(BeforeEpoch) else Ok(nanos / NANOS_PER_SECOND)
  }

  /** The file name `log_path` gives a log started at `secs`. */
  function LogFileName(secs: nat): (r: string)
    ensures |r| > 9 && r[..4] == "log_" && r[|r| - 5..] == ".json"
    ensures (forall k :: 4 <= k < |r| - 5 ==> IsDigit(r[k])) && ParseDecimal(r[4..|r| - 5]) == secs
  {
    var digits := NatToString(secs);
    var r := "log_" + digits + ".json";
    assert r[4..|r| - 5] == digits;
    ParseNatToString(secs);
    r
  }

  /** Log files started in different seconds have different names. */
  lemma LogFileNamesDistinct(s: nat, t: nat)
    requires s != t
    ensures LogFileName(s) != LogFileName(t)
  {
    if LogFileName(s) == LogFileName(t) {
      var a := NatToString(s);
      var b := NatToString(t);
      assert |a| == |b|;
      assert a == LogFileName(s)[4..4 + |a|];
      assert b == LogFileName(t)[4..4 + |b|];
      NatToStringInjective(s, t);
    }
  }

  /**
   * `log_path`: a timestamped `.json` file in `logs_root`. The directories are
   * made before the clock is read, so they stay made when the clock fails.
   */
  function LogPathRun(fs: Tree, dataLocal: Option<Path>, segment: string, nanos: int): (r: Run)
    ensures r.fs == LogsRootRun(fs, dataLocal, segment).fs
    ensures LogsRootRun(fs, dataLocal, segment).out.Err? ==> r.out == LogsRootRun(fs, dataLocal, segment).out
    ensures LogsRootRun(fs, dataLocal, segment).out.Ok? && nanos < 0 ==> r.out == Err(BeforeEpoch)
    ensures r.out.Ok? ==>
              && nanos >= 0
              && r.out.value == dataLocal.value + [segment, "logs", LogFileName(nanos / NANOS_PER_SECOND)]
              && Ensured(fs, r.fs, dataLocal.value + [segment, "logs"])
              && (r.out.value in r.fs ==> r.out.value in fs)
  {
    var root := LogsRootRun(fs, dataLocal, segment);
    if root.out.Err? then root
    else
      var again := Mkdir(root.fs, root.out.value);
      match Epoch(nanos)
      case Err(e) => Run(again.fs, Err(e))
      case Ok(secs) =>
        var file := again.out.value + [LogFileName(secs)];
        ChildNotPrefix(root.out.value, LogFileName(secs));
        Run(again.fs, Ok(file))
  }

  /** A second call of `log_path` at the same instant returns the same path and changes nothing more. */
  lemma LogPathRunIdempotent(fs: Tree, dataLocal: Option<Path>, segment: string, nanos: int)
    ensures var r := LogPathRun(fs, dataLocal, segment, nanos);
            LogPathRun(r.fs, dataLocal, segment, nanos) == r
  {
    DataDirRunIdempotent(fs, dataLocal, segment, "logs");
  }

  // ---------------------------------------------------------------------
  // The operations over the filesystem, the global name and the platform
  // ---------------------------------------------------------------------

  /** `dirs::<kind>_dir`, the function `wrap_dirs!` generates for `kind`. */
  method AppDir(fs: FileSystem, registry: GlobalProductName, platform: DirKind -> Option<Path>, kind: DirKind)
    returns (r: Result<Path, PathError>)
    requires registry.Valid()
    modifies fs
    ensures var run := DirRun(old(fs.entries), kind, platform(kind), Segment(registry.cell));
            fs.entries == run.fs && r == run.out
  {
    var global := registry.Global();
    var segment := Segment(global);
    var base := platform(kind);
    if base.None? {
      return Err(NotFound(kind));
    }
    r := fs.MkdirIfNotExists(base.value + [segment]);
  }

  /** `configs_root`. */
  method ConfigsRoot(fs: FileSystem, registry: GlobalProductName, platform: DirKind -> Option<Path>)
    returns (r: Result<Path, PathError>)
    requires registry.Valid()
    modifies fs
    ensures var run := ConfigsRootRun(old(fs.entries), platform(DataLocal), Segment(registry.cell));
            fs.entries == run.fs && r == run.out
  {
    var dir := AppDir(fs, registry, platform, DataLocal);
    if dir.Err? {
      return dir;
    }
    r := fs.MkdirIfNotExists(dir.value + ["configs"]);
  }

  /** `config_path`. */
  method ConfigPath(fs: FileSystem, registry: GlobalProductName, platform: DirKind -> Option<Path>, unit: string)
    returns (r: Result<Path, PathError>)
    requires registry.Valid()
    modifies fs
    ensures var run := ConfigPathRun(old(fs.entries), platform(DataLocal), Segment(registry.cell), unit);
            fs.entries == run.fs && r == run.out
  {
    var root := ConfigsRoot(fs, registry, platform);
    if root.Err? {
      return root;
    }
    var again := fs.MkdirIfNotExists(root.value);
    r := Ok(again.value + [ConfigFileName(unit)]);
  }

  /** `logs_root`. */
  method LogsRoot(fs: FileSystem, registry: GlobalProductName, platform: DirKind -> Option<Path>)
    returns (r: Result<Path, PathError>)
    requires registry.Valid()
    modifies fs
    ensures var run := LogsRootRun(old(fs.entries), platform(DataLocal), Segment(registry.cell));
            fs.entries == run.fs && r == run.out
  {
    var dir := AppDir(fs, registry, platform, DataLocal);
    if dir.Err? {
      return dir;
    }
    r := fs.MkdirIfNotExists(dir.value + ["logs"]);
  }

  /** `log_path`, with the clock reading `nanos`. */
  method LogPath(fs: FileSystem, registry: GlobalProductName, platform: DirKind -> Option<Path>, nanos: int)
    returns (r: Result<Path, PathError>)
    requires registry.Valid()
    modifies fs
    ensures var run := LogPathRun(old(fs.entries), platform(DataLocal), Segment(registry.cell), nanos);
            fs.entries == run.fs && r == run.out
  {
    var root := LogsRoot(fs, registry, platform);
    if root.Err? {
      return root;
    }
    var again := fs.MkdirIfNotExists(root.value);
    var secs := Epoch(nanos);
    if secs.Err? {
      return Err(secs.error);
    }
    r := Ok(again.value + [LogFileName(secs.value)]);
  }
}
