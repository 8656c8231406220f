/**
 * `ProductName` (libproduct/src/lib.rs): a dotted product identifier with a
 * fallback version and an optional build record, the seven preset format
 * strings, and the descriptor engine that fills `{KEY}` placeholders.
 */
module Product {
  import opened Wrappers
  import opened Text
  import opened Substitution
  import opened Formats

  // ---------------------------------------------------------------------
  // BuildInfo: the fields of the build record the descriptor reads
  // ---------------------------------------------------------------------

  datatype GitInfo = GitInfo(
    branch: Option<string>,
    commitHash: string,
    commitShortHash: string,
    dirty: bool,
    commitMessage: Option<string>,
    authorName: Option<string>,
    authorEmail: Option<string>,
    tags: seq<string>,
    remoteUrl: Option<string>,
    commitCount: Option<nat>)

  datatype OsInfo = OsInfo(name: string, version: string, longVersion: string, architecture: string)

  datatype AgentInfo = AgentInfo(hostname: string, os: OsInfo, ncpus: nat, memoryTotalHuman: string)

  datatype PackageInfo = PackageInfo(version: Option<string>)

  datatype BuildInfo = BuildInfo(git: GitInfo, agent: AgentInfo, package: PackageInfo)

  // ---------------------------------------------------------------------
  // ProductName
  // ---------------------------------------------------------------------

  datatype ProductName = ProductName(base: string, ext: seq<string>, version: string, build: Option<BuildInfo>)

  /** `ProductName::new`: a name with no extensions yet. */
  function New(base: string, version: string, build: Option<BuildInfo>): (r: ProductName)
    ensures r.ext == []
    ensures r.base == base && r.version == version && r.build == build
  {
    ProductName(base, [], version, build)
  }

  /** `ProductName::with`: a copy of `p` with one more extension; `p` itself is a value and stays as it is. */
  function With(p: ProductName, e: string): (r: ProductName)
    ensures r.ext == p.ext + [e]
    ensures r.base == p.base && r.version == p.version && r.build == p.build
  {
    p.(ext := p.ext + [e])
  }

  /** Each extension preceded by a dot, in order (the loop of `Display::fmt`). */
  function Dotted(ext: seq<string>): string {
    if ext == [] then "" else "." + ext[0] + Dotted(ext[1..])
  }

  /** `ProductName::name`, i.e. its `Display` rendering. */
  function Name(p: ProductName): (r: string)
    ensures p.base <= r
    ensures p.ext == [] ==> r == p.base
  {
    p.base + Dotted(p.ext)
  }

  /** `ProductName::version`: the build record's package version if there is one, else the own field. */
  function Version(p: ProductName): (r: string)
    ensures r == p.version || (p.build.Some? && p.build.value.package.version == Some(r))
  {
    if p.build.Some? && p.build.value.package.version.Some? then p.build.value.package.version.value
    else p.version
  }

  lemma {:induction false} DottedAppend(ext: seq<string>, e: string)
    ensures Dotted(ext + [e]) == Dotted(ext) + "." + e
  {
    if ext != [] {
      assert (ext + [e])[1..] == ext[1..] + [e];
      DottedAppend(ext[1..], e);
    } else {
      assert [] + [e] == [e];
    }
  }

  /** A fresh name renders as its base. */
  lemma NameOfNew(base: string, version: string, build: Option<BuildInfo>)
    ensures Name(New(base, version, build)) == base
  {
  }

  /** `with(e)` appends `"." + e` to the rendered name. */
  lemma NameWith(p: ProductName, e: string)
    ensures Name(With(p, e)) == Name(p) + "." + e
  {
    DottedAppend(p.ext, e);
  }

  /** The rendered name is the base and the extensions joined by `.`. */
  lemma {:induction false} NameIsDottedJoin(p: ProductName)
    ensures Name(p) == Join([p.base] + p.ext, ".")
    decreases |p.ext|
  {
    if p.ext != [] {
      var e, rest := p.ext[0], p.ext[1..];
      var q := p.(base := p.base + "." + e, ext := rest);
      assert Name(p) == Name(q) by {
        assert Dotted(p.ext) == "." + e + Dotted(rest);
      }
      NameIsDottedJoin(q);
      assert [e] + rest == p.ext;
      JoinHead(p.base, p.ext);
      JoinHead(e, rest);
      JoinHead(q.base, rest);
      if rest == [] {
        assert Join([p.base] + p.ext, ".") == p.base + "." + e;
      } else {
        assert Join([p.base] + p.ext, ".") == p.base + "." + (e + "." + Join(rest, "."));
      }
    } else {
      assert [p.base] + p.ext == [p.base];
    }
  }

  /** Joining `[x] + rest` is `x`, then `.` and the join of `rest` unless `rest` is empty. */
  lemma JoinHead(x: string, rest: seq<string>)
    ensures Join([x] + rest, ".") == if rest == [] then x else x + "." + Join(rest, ".")
  {
    assert ([x] + rest)[1..] == rest;
  }

  /** The extension example of libproduct's tests. */
  lemma NameOfTwoExtensions(version: string, build: Option<BuildInfo>)
    ensures Name(With(With(New("dev.thmsn.ext", version, build), "app"), "another_ext"))
         == "dev.thmsn.ext.app.another_ext"
  {
    var p := New("dev.thmsn.ext", version, build);
    NameWith(p, "app");
    NameWith(With(p, "app"), "another_ext");
  }

  /** The version falls back to the own field unless the build record supplies one. */
  lemma VersionResolution(p: ProductName)
    ensures p.build.None? ==> Version(p) == p.version
    ensures p.build.Some? && p.build.value.package.version.None? ==> Version(p) == p.version
    ensures p.build.Some? && p.build.value.package.version.Some? ==>
              Version(p) == p.build.value.package.version.value
  {
  }

  // ---------------------------------------------------------------------
  // The descriptor engine
  // ---------------------------------------------------------------------

  /** The placeholder keys the descriptor knows, named as they are spelled inside the braces. */
  datatype Key =
    | NAME | VERSION
    | GIT_REF | GIT_LONG_HASH | GIT_HASH | GIT_DIRTY | GIT_DIRTY_STAR | GIT_MESSAGE
    | GIT_AUTHOR | GIT_EMAIL | GIT_TAGS | GIT_REMOTE | GIT_COMMIT_COUNT
    | BUILD_HOST | BUILD_OS | BUILD_OS_VERSION | BUILD_OS_LONG | BUILD_ARCH | BUILD_CPUS | BUILD_MEM

  function KeyName(k: Key): string {
    match k
    case NAME => "NAME"
    case VERSION => "VERSION"
    case GIT_REF => "GIT_REF"
    case GIT_LONG_HASH => "GIT_LONG_HASH"
    case GIT_HASH => "GIT_HASH"
    case GIT_DIRTY => "GIT_DIRTY"
    case GIT_DIRTY_STAR => "GIT_DIRTY_STAR"
    case GIT_MESSAGE => "GIT_MESSAGE"
    case GIT_AUTHOR => "GIT_AUTHOR"
    case GIT_EMAIL => "GIT_EMAIL"
    case GIT_TAGS => "GIT_TAGS"
    case GIT_REMOTE => "GIT_REMOTE"
    case GIT_COMMIT_COUNT => "GIT_COMMIT_COUNT"
    case BUILD_HOST => "BUILD_HOST"
    case BUILD_OS => "BUILD_OS"
    case BUILD_OS_VERSION => "BUILD_OS_VERSION"
    case BUILD_OS_LONG => "BUILD_OS_LONG"
    case BUILD_ARCH => "BUILD_ARCH"
    case BUILD_CPUS => "BUILD_CPUS"
    case BUILD_MEM => "BUILD_MEM"
  }

  lemma KeyNameIsUpperCase(k: Key)
    ensures forall c :: c in KeyName(k) ==> 'A' <= c <= '_'
  {
  }

  /** The text `{KEY}` that `descriptor` replaces for key `k`. */
  function Placeholder(k: Key): (t: string)
    ensures IsToken(t)
  {
    KeyNameIsUpperCase(k);
    BracedIsToken(KeyName(k));
    Braced(KeyName(k))
  }

  lemma KeyNameInjective(a: Key, b: Key)
    requires KeyName(a) == KeyName(b)
    ensures a == b
  {
  }

  /** Distinct keys have distinct placeholders. */
  lemma PlaceholderInjective(a: Key, b: Key)
    ensures Placeholder(a) == Placeholder(b) <==> a == b
  {
    if Placeholder(a) == Placeholder(b) {
      var t := Placeholder(a);
      assert t[1..|t| - 1] == KeyName(a);
      assert t[1..|t| - 1] == KeyName(b);
      KeyNameInjective(a, b);
    }
  }

  /** The `opt` helper: an absent optional field reads as the empty string. */
  function OrEmpty(o: Option<string>): string {
    o.GetOr("")
  }

  /** The keys of the branch taken when a build record is present, in the order of the calls. */
  const BUILD_KEYS: seq<Key> :=
    [ GIT_REF, GIT_LONG_HASH, GIT_HASH, GIT_DIRTY, GIT_DIRTY_STAR, GIT_MESSAGE,
      GIT_AUTHOR, GIT_EMAIL, GIT_TAGS, GIT_REMOTE, GIT_COMMIT_COUNT,
      BUILD_HOST, BUILD_OS, BUILD_OS_VERSION, BUILD_OS_LONG, BUILD_ARCH, BUILD_CPUS, BUILD_MEM ]

  /** The keys of the branch taken without a build record: `{GIT_DIRTY_STAR}` is not among them. */
  const NO_BUILD_KEYS: seq<Key> :=
    [ GIT_REF, GIT_LONG_HASH, GIT_HASH, GIT_DIRTY, GIT_MESSAGE,
      GIT_AUTHOR, GIT_EMAIL, GIT_TAGS, GIT_REMOTE, GIT_COMMIT_COUNT,
      BUILD_HOST, BUILD_OS, BUILD_OS_VERSION, BUILD_OS_LONG, BUILD_ARCH, BUILD_CPUS, BUILD_MEM ]

  /** The keys the chain replaces, in order: the name and the version first, then one branch. */
  function ChainKeys(p: ProductName): seq<Key> {
    [NAME, VERSION] + if p.build.Some? then BUILD_KEYS else NO_BUILD_KEYS
  }

  /** The text the chain puts in for `k`, whenever it replaces `k` at all. */
  function Value(p: ProductName, k: Key): (r: string)
    ensures p.build.None? && k != NAME && k != VERSION ==> r == ""
    ensures '{' in r ==> k == NAME || k == VERSION || p.build.Some?
  {
    match k
    case NAME => Name(p)
    case VERSION => Version(p)
    case _ =>
      match p.build
      case None => ""
      case Some(b) => BuildValue(b, k)
  }

  /** The value taken from the build record for a key other than the name and the version. */
  function BuildValue(b: BuildInfo, k: Key): (r: string)
    ensures k == NAME || k == VERSION ==> r == ""
    ensures k == GIT_DIRTY ==> r == "dirty" || r == ""
    ensures k == GIT_DIRTY_STAR ==> r == "*" || r == ""
    ensures k == GIT_MESSAGE && r != [] ==> !IsWhitespace(r[0]) && !IsWhitespace(r[|r| - 1])
    ensures k == GIT_COMMIT_COUNT || k == BUILD_CPUS ==> forall i :: 0 <= i < |r| ==> IsDigit(r[i])
  {
    var git := b.git;
    var agent := b.agent;
    match k
    case NAME => ""
    case VERSION => ""
    case GIT_REF => OrEmpty(git.branch)
    case GIT_LONG_HASH => git.commitHash
    case GIT_HASH => git.commitShortHash
    case GIT_DIRTY => if git.dirty then "dirty" else ""
    case GIT_DIRTY_STAR => if git.dirty then "*" else ""
    case GIT_MESSAGE => Trim(OrEmpty(git.commitMessage))
    case GIT_AUTHOR => OrEmpty(git.authorName)
    case GIT_EMAIL => OrEmpty(git.authorEmail)
    case GIT_TAGS => Join(git.tags, ",")
    case GIT_REMOTE => OrEmpty(git.remoteUrl)
    case GIT_COMMIT_COUNT => if git.commitCount.Some? then NatToString(git.commitCount.value) else ""
    case BUILD_HOST => agent.hostname
    case BUILD_OS => agent.os.name
    case BUILD_OS_VERSION => agent.os.version
    case BUILD_OS_LONG => agent.os.longVersion
    case BUILD_ARCH => agent.os.architecture
    case BUILD_CPUS => NatToString(agent.ncpus)
    case BUILD_MEM => agent.memoryTotalHuman
  }

  /** The `str::replace` arguments for the keys `ks`, in order: each placeholder with the value `v` gives it. */
  function Bindings(v: Key -> string, ks: seq<Key>): (bs: seq<Binding>)
    ensures |bs| == |ks|
    ensures forall i :: 0 <= i < |bs| ==> bs[i] == Binding(Placeholder(ks[i]), v(ks[i]))
    ensures KeysAreTokens(bs)
  {
    seq(|ks|, i requires 0 <= i < |ks| => Binding(Placeholder(ks[i]), v(ks[i])))
  }

  /** The chain of `str::replace` calls `descriptor` makes. */
  function Chain(p: ProductName): seq<Binding> {
    Bindings(k => Value(p, k), ChainKeys(p))
  }

  /** `ProductName::descriptor`: the chain of `str::replace` calls applied to `fmt`. */
  function Descriptor(p: ProductName, fmt: string): (r: string)
    ensures '{' !in fmt ==> r == fmt
  {
    assert '{' !in fmt ==> ApplyAll(fmt, Chain(p)) == fmt by {
      if '{' !in fmt {
        ApplyAllBraceFree(fmt, Chain(p));
      }
    }
    ApplyAll(fmt, Chain(p))
  }

  /** With a build record the chain replaces every key. */
  lemma AllKeysWithBuild(p: ProductName, k: Key)
    requires p.build.Some?
    ensures k in ChainKeys(p)
  {
    if k != NAME && k != VERSION {
      assert k in BUILD_KEYS;
    }
  }

  /** Without a build record the chain replaces every key except `{GIT_DIRTY_STAR}`. */
  lemma KeysWithoutBuild(p: ProductName, k: Key)
    requires p.build.None?
    ensures k in ChainKeys(p) <==> k != GIT_DIRTY_STAR
  {
    if k != NAME && k != VERSION {
      assert k in NO_BUILD_KEYS <==> k != GIT_DIRTY_STAR;
    }
  }

  /** Looking a placeholder up among the arguments finds the value of its key, if the key is among them. */
  lemma LookupBindings(v: Key -> string, ks: seq<Key>, k: Key)
    ensures Lookup(Bindings(v, ks), Placeholder(k)) == if k in ks then Some(v(k)) else None
  {
    if k in ks {
      LookupPresent(v, ks, k);
    } else {
      LookupAbsent(v, ks, k);
    }
  }

  lemma LookupPresent(v: Key -> string, ks: seq<Key>, k: Key)
    requires k in ks
    ensures Lookup(Bindings(v, ks), Placeholder(k)) == Some(v(k))
  {
    var bs := Bindings(v, ks);
    var i :| 0 <= i < |ks| && ks[i] == k;
    assert bs[i].key == Placeholder(k);
    var r := Lookup(bs, Placeholder(k));
    var j :| 0 <= j < |bs| && bs[j] == Binding(Placeholder(k), r.value);
    PlaceholderInjective(ks[j], k);
  }

  lemma LookupAbsent(v: Key -> string, ks: seq<Key>, k: Key)
    requires k !in ks
    ensures Lookup(Bindings(v, ks), Placeholder(k)) == None
  {
    var bs := Bindings(v, ks);
    forall i | 0 <= i < |bs| ensures bs[i].key != Placeholder(k) {
      PlaceholderInjective(ks[i], k);
    }
  }

  lemma LookupChain(p: ProductName, k: Key)
    ensures Lookup(Chain(p), Placeholder(k)) == if k in ChainKeys(p) then Some(Value(p, k)) else None
  {
    LookupBindings(k => Value(p, k), ChainKeys(p), k);
  }

  /**
   * The value of `k` brings no `{` with it. A key the chain does not replace
   * has the empty value, so this only constrains the keys it replaces.
   */
  predicate ValueBraceFree(p: ProductName, k: Key) {
    '{' !in Value(p, k)
  }

  // ---------------------------------------------------------------------
  // What the chain does to a format
  // ---------------------------------------------------------------------

  /**
   * A format string seen as literal text, placeholders of catalogue keys, and
   * other `{...}` tokens the catalogue does not know.
   */
  datatype Part = Lit(text: string) | Slot(key: Key) | Unknown(token: string)

  /** The text a part spells in a format string. */
  function Spell(x: Part): string {
    match x
    case Lit(t) => t
    case Slot(k) => Placeholder(k)
    case Unknown(t) => t
  }

  /** The format string the parts spell. */
  function Format(parts: seq<Part>): string {
    if parts == [] then "" else Spell(parts[0]) + Format(parts[1..])
  }

  /** Literal text holds no `{`, and an unknown token is a token that spells no catalogue key. */
  predicate PartOk(x: Part) {
    match x
    case Lit(t) => '{' !in t
    case Slot(_) => true
    case Unknown(t) => IsToken(t) && forall k: Key :: t != Placeholder(k)
  }

  predicate PartsOk(parts: seq<Part>) {
    forall i :: 0 <= i < |parts| ==> PartOk(parts[i])
  }

  /** Every key the parts ask for has a value free of `{`. */
  predicate SlotsBraceFree(p: ProductName, parts: seq<Part>) {
    forall i :: 0 <= i < |parts| && parts[i].Slot? ==> ValueBraceFree(p, parts[i].key)
  }

  /** What the descriptor makes of the placeholder of `k`: its value when the branch taken replaces `k`, else the placeholder itself. */
  function Resolved(p: ProductName, k: Key): string {
    if k in ChainKeys(p) then Value(p, k) else Placeholder(k)
  }

  function Out(p: ProductName, x: Part): string {
    match x
    case Lit(t) => t
    case Slot(k) => Resolved(p, k)
    case Unknown(t) => t
  }

  /** One pass over the parts: literal text and unknown tokens kept, each placeholder resolved once. */
  function Render(p: ProductName, parts: seq<Part>): string {
    if parts == [] then "" else Out(p, parts[0]) + Render(p, parts[1..])
  }

  function ToPiece(x: Part): Piece {
    match x
    case Lit(t) => Plain(t)
    case Slot(k) => Token(Placeholder(k))
    case Unknown(t) => Token(t)
  }

  function ToPieces(parts: seq<Part>): (ps: seq<Piece>)
    ensures |ps| == |parts|
    ensures forall i :: 0 <= i < |parts| ==> ps[i] == ToPiece(parts[i])
  {
    if parts == [] then [] else [ToPiece(parts[0])] + ToPieces(parts[1..])
  }

  lemma {:induction false} ToPiecesOk(parts: seq<Part>)
    requires PartsOk(parts)
    ensures TemplateOk(ToPieces(parts))
    ensures Flatten(ToPieces(parts)) == Format(parts)
  {
    var ps := ToPieces(parts);
    forall i | 0 <= i < |ps| ensures PieceOk(ps[i]) {
      assert PartOk(parts[i]);
    }
    if parts != [] {
      assert PartsOk(parts[1..]) by {
        assert forall i :: 0 <= i < |parts[1..]| ==> parts[1..][i] == parts[i + 1];
      }
      ToPiecesOk(parts[1..]);
      assert ps[1..] == ToPieces(parts[1..]);
    }
  }

  /** The only pieces that spell the placeholder of `k` come from slots for `k`. */
  lemma ToPiecesTokens(parts: seq<Part>, k: Key)
    requires PartsOk(parts) && Token(Placeholder(k)) in ToPieces(parts)
    ensures exists i :: 0 <= i < |parts| && parts[i] == Slot(k)
  {
    var i :| 0 <= i < |parts| && ToPieces(parts)[i] == Token(Placeholder(k));
    assert PartOk(parts[i]);
    match parts[i]
    case Slot(j) => PlaceholderInjective(j, k);
  }

  lemma {:induction false} RenderIsTemplate(p: ProductName, parts: seq<Part>)
    requires PartsOk(parts)
    ensures RenderTemplate(ToPieces(parts), Chain(p)) == Render(p, parts)
  {
    if parts != [] {
      var ps := ToPieces(parts);
      assert ps[1..] == ToPieces(parts[1..]);
      assert PartsOk(parts[1..]) by {
        assert forall i :: 0 <= i < |parts[1..]| ==> parts[1..][i] == parts[i + 1];
      }
      RenderIsTemplate(p, parts[1..]);
      assert PartOk(parts[0]);
      match parts[0]
      case Lit(_) =>
      case Slot(k) => LookupChain(p, k);
      case Unknown(t) =>
        var bs := Chain(p);
        forall i | 0 <= i < |bs| ensures bs[i].key != t {
          assert bs[i].key == Placeholder(ChainKeys(p)[i]);
        }
    }
  }

  /**
   * When no value the format asks for brings a `{` in, the chain of `descriptor`
   * acts as one pass over the format: each placeholder becomes the value of its
   * key, or stays when the branch taken does not replace that key, and literal
   * text and unknown tokens are kept.
   */
  lemma DescriptorIsSinglePass(p: ProductName, parts: seq<Part>)
    requires PartsOk(parts) && SlotsBraceFree(p, parts)
    ensures Descriptor(p, Format(parts)) == Render(p, parts)
  {
    var ps := ToPieces(parts);
    var bs := Chain(p);
    var ks := ChainKeys(p);
    ToPiecesOk(parts);
    forall i | 0 <= i < |bs| && Token(bs[i].key) in ps
      ensures '{' !in bs[i].value
    {
      assert bs[i] == Binding(Placeholder(ks[i]), Value(p, ks[i]));
      ToPiecesTokens(parts, ks[i]);
      var j :| 0 <= j < |parts| && parts[j] == Slot(ks[i]);
      assert ks[i] in ks;
    }
    ApplyAllIsLookup(ps, bs);
    RenderIsTemplate(p, parts);
  }

  /**
   * A lone placeholder stays when the branch taken does not replace its key.
   * Otherwise it becomes the value of its key, which then goes through the
   * steps after that key's own; a value without `{` comes out as it is.
   */
  lemma DescriptorOfPlaceholder(p: ProductName, k: Key)
    ensures k !in ChainKeys(p) ==> Descriptor(p, Placeholder(k)) == Placeholder(k)
    ensures k in ChainKeys(p) ==>
              Descriptor(p, Placeholder(k)) == ApplyAll(Value(p, k), After(Chain(p), Placeholder(k)))
    ensures k in ChainKeys(p) && '{' !in Value(p, k) ==> Descriptor(p, Placeholder(k)) == Value(p, k)
  {
    var bs := Chain(p);
    var t := Placeholder(k);
    LookupChain(p, k);
    ApplyAllToken(t, bs);
    if k in ChainKeys(p) {
      assert Lookup(bs, t) == Some(Value(p, k));
      if '{' !in Value(p, k) {
        ApplyAllTokenOnce(t, bs);
      }
    }
  }

  /** A format in which no catalogue placeholder occurs comes out unchanged. */
  lemma DescriptorKeepsPlainText(p: ProductName, s: string)
    requires forall k: Key :: !Contains(s, Placeholder(k))
    ensures Descriptor(p, s) == s
  {
    var bs := Chain(p);
    forall i | 0 <= i < |bs| ensures bs[i].key != [] && !Contains(s, bs[i].key) {
      assert bs[i].key == Placeholder(ChainKeys(p)[i]);
    }
    ApplyAllNoKeys(s, bs);
  }

  lemma {:induction false} FormatAppend(a: seq<Part>, b: seq<Part>)
    ensures Format(a + b) == Format(a) + Format(b)
  {
    if a == [] {
      assert a + b == b;
    } else {
      assert (a + b)[1..] == a[1..] + b;
      FormatAppend(a[1..], b);
    }
  }

  lemma {:induction false} RenderAppend(p: ProductName, a: seq<Part>, b: seq<Part>)
    ensures Render(p, a + b) == Render(p, a) + Render(p, b)
  {
    if a == [] {
      assert a + b == b;
    } else {
      assert (a + b)[1..] == a[1..] + b;
      RenderAppend(p, a[1..], b);
    }
  }

  lemma PartsAppend(p: ProductName, a: seq<Part>, b: seq<Part>)
    requires PartsOk(a) && PartsOk(b) && SlotsBraceFree(p, a) && SlotsBraceFree(p, b)
    ensures PartsOk(a + b) && SlotsBraceFree(p, a + b)
  {
    forall i | 0 <= i < |a + b|
      ensures PartOk((a + b)[i]) && ((a + b)[i].Slot? ==> ValueBraceFree(p, (a + b)[i].key))
    {
      if i < |a| {
        assert (a + b)[i] == a[i];
      } else {
        assert (a + b)[i] == b[i - |a|];
      }
    }
  }

  /**
   * A `{...}` token the catalogue does not know comes out unchanged wherever it
   * stands, whatever text surrounds it and whatever the values hold: the text
   * on each side of it is rendered as if it stood alone.
   */
  lemma DescriptorKeepsUnknownToken(p: ProductName, before: string, t: string, after: string)
    requires IsToken(t) && forall k: Key :: t != Placeholder(k)
    ensures Descriptor(p, before + t + after) == Descriptor(p, before) + t + Descriptor(p, after)
  {
    var bs := Chain(p);
    forall i | 0 <= i < |bs| ensures bs[i].key != t {
      assert bs[i].key == Placeholder(ChainKeys(p)[i]);
    }
    ApplyAllAroundToken(before, t, after, bs);
  }

  /**
   * Between parts of a well-formed format the same token comes out unchanged,
   * and the parts on each side render in one pass.
   */
  lemma DescriptorKeepsUnknownPlaceholder(p: ProductName, before: seq<Part>, t: string, after: seq<Part>)
    requires PartsOk(before) && PartsOk(after) && SlotsBraceFree(p, before) && SlotsBraceFree(p, after)
    requires IsToken(t) && forall k: Key :: t != Placeholder(k)
    ensures Descriptor(p, Format(before) + t + Format(after)) == Render(p, before) + t + Render(p, after)
  {
    var parts := before + [Unknown(t)] + after;
    assert PartsOk([Unknown(t)]) && SlotsBraceFree(p, [Unknown(t)]);
    PartsAppend(p, before, [Unknown(t)]);
    PartsAppend(p, before + [Unknown(t)], after);
    FormatAppend(before + [Unknown(t)], after);
    FormatAppend(before, [Unknown(t)]);
    RenderAppend(p, before + [Unknown(t)], after);
    RenderAppend(p, before, [Unknown(t)]);
    assert Format([Unknown(t)]) == t;
    assert Render(p, [Unknown(t)]) == t;
    DescriptorIsSinglePass(p, parts);
  }


  /** Without a build record every git and agent placeholder is cleared, except `{GIT_DIRTY_STAR}`. */
  lemma ClearedWithoutBuild(p: ProductName, k: Key)
    requires p.build.None? && k != NAME && k != VERSION && k != GIT_DIRTY_STAR
    ensures Descriptor(p, Placeholder(k)) == ""
  {
    KeysWithoutBuild(p, k);
    DescriptorOfPlaceholder(p, k);
  }

  /** Without a build record `{GIT_DIRTY_STAR}` is left in the text as it is. */
  lemma DirtyStarKeptWithoutBuild(p: ProductName)
    requires p.build.None?
    ensures Descriptor(p, Placeholder(GIT_DIRTY_STAR)) == Placeholder(GIT_DIRTY_STAR)
  {
    KeysWithoutBuild(p, GIT_DIRTY_STAR);
    DescriptorOfPlaceholder(p, GIT_DIRTY_STAR);
  }

  /**
   * With a build record every placeholder becomes the value of its key, run
   * through the steps after that key's own; a value without `{` comes out as it is.
   */
  lemma DescriptorWithBuild(p: ProductName, k: Key)
    requires p.build.Some?
    ensures Descriptor(p, Placeholder(k)) == ApplyAll(Value(p, k), After(Chain(p), Placeholder(k)))
    ensures '{' !in Value(p, k) ==> Descriptor(p, Placeholder(k)) == Value(p, k)
  {
    AllKeysWithBuild(p, k);
    DescriptorOfPlaceholder(p, k);
  }

  /** With a build record a placeholder whose value `v` has no `{` becomes `v`. */
  lemma BuiltValue(p: ProductName, k: Key, v: string)
    requires p.build.Some? && Value(p, k) == v && '{' !in v
    ensures Descriptor(p, Placeholder(k)) == v
  {
    DescriptorWithBuild(p, k);
  }

  lemma DirtyValues(p: ProductName)
    requires p.build.Some?
    ensures Value(p, GIT_DIRTY) == if p.build.value.git.dirty then "dirty" else ""
    ensures Value(p, GIT_DIRTY_STAR) == if p.build.value.git.dirty then "*" else ""
  {
  }

  /** With a build record the dirty flag shows as `dirty` and as `*`, and as nothing when the tree is clean. */
  lemma DirtyMarkersWithBuild(p: ProductName)
    requires p.build.Some?
    ensures Descriptor(p, Placeholder(GIT_DIRTY)) == if p.build.value.git.dirty then "dirty" else ""
    ensures Descriptor(p, Placeholder(GIT_DIRTY_STAR)) == if p.build.value.git.dirty then "*" else ""
  {
    var dirty := p.build.value.git.dirty;
    DirtyValues(p);
    BuiltValue(p, GIT_DIRTY, if dirty then "dirty" else "");
    BuiltValue(p, GIT_DIRTY_STAR, if dirty then "*" else "");
  }

  /** The commit message comes out trimmed: whitespace at neither end. */
  lemma MessageWithBuild(p: ProductName)
    requires p.build.Some? && '{' !in OrEmpty(p.build.value.git.commitMessage)
    ensures var r := Descriptor(p, Placeholder(GIT_MESSAGE));
            && r == Trim(OrEmpty(p.build.value.git.commitMessage))
            && (r != [] ==> !IsWhitespace(r[0]) && !IsWhitespace(r[|r| - 1]))
  {
    var m := OrEmpty(p.build.value.git.commitMessage);
    TrimAvoids(m, '{');
    TrimSlice(m);
    assert Value(p, GIT_MESSAGE) == Trim(m);
    DescriptorWithBuild(p, GIT_MESSAGE);
  }

  /** The tags come out joined by `,`; when there is at least one and none holds a `,`, splitting at `,` gives them back. */
  lemma TagsWithBuild(p: ProductName)
    requires p.build.Some?
    requires var tags := p.build.value.git.tags;
             forall k :: 0 <= k < |tags| ==> '{' !in tags[k]
    ensures Descriptor(p, Placeholder(GIT_TAGS)) == Join(p.build.value.git.tags, ",")
    ensures var tags := p.build.value.git.tags;
            tags != [] && (forall k :: 0 <= k < |tags| ==> ',' !in tags[k]) ==>
              Split(Descriptor(p, Placeholder(GIT_TAGS)), ',') == tags
  {
    var tags := p.build.value.git.tags;
    JoinAvoids(tags, ",", '{');
    assert Value(p, GIT_TAGS) == Join(tags, ",");
    DescriptorWithBuild(p, GIT_TAGS);
    if tags != [] && forall k :: 0 <= k < |tags| ==> ',' !in tags[k] {
      SplitJoin(tags, ',');
    }
  }

  /** The commit count comes out in decimal and reads back as the same number; an absent count is cleared. */
  lemma CommitCountWithBuild(p: ProductName)
    requires p.build.Some?
    ensures var r := Descriptor(p, Placeholder(GIT_COMMIT_COUNT));
            match p.build.value.git.commitCount
            case None => r == ""
            case Some(n) => (forall k :: 0 <= k < |r| ==> IsDigit(r[k])) && ParseDecimal(r) == n
  {
    var c := p.build.value.git.commitCount;
    if c.Some? {
      assert Value(p, GIT_COMMIT_COUNT) == NatToString(c.value);
      ParseNatToString(c.value);
    } else {
      assert Value(p, GIT_COMMIT_COUNT) == "";
    }
    DescriptorWithBuild(p, GIT_COMMIT_COUNT);
  }

  /** The processor count comes out in decimal and reads back as the same number. */
  lemma CpusWithBuild(p: ProductName)
    requires p.build.Some?
    ensures var r := Descriptor(p, Placeholder(BUILD_CPUS));
            (forall k :: 0 <= k < |r| ==> IsDigit(r[k])) && ParseDecimal(r) == p.build.value.agent.ncpus
  {
    var n := p.build.value.agent.ncpus;
    assert Value(p, BUILD_CPUS) == NatToString(n);
    ParseNatToString(n);
    DescriptorWithBuild(p, BUILD_CPUS);
  }

  // ---------------------------------------------------------------------
  // The presets
  // ---------------------------------------------------------------------

  /**
   * `PartsOk` and `SlotsBraceFree` checked one part at a time from the end, so
   * that building a long format part by part keeps no quantifier per step in view.
   */
  predicate Admissible(p: ProductName, parts: seq<Part>)
    decreases |parts|
  {
    parts == [] ||
    var x := parts[|parts| - 1];
    Admissible(p, parts[..|parts| - 1]) && PartOk(x) && (x.Slot? ==> ValueBraceFree(p, x.key))
  }

  lemma {:induction false} AdmissibleOk(p: ProductName, parts: seq<Part>)
    requires Admissible(p, parts)
    ensures PartsOk(parts) && SlotsBraceFree(p, parts)
  {
    if parts != [] {
      var front := parts[..|parts| - 1];
      AdmissibleOk(p, front);
      forall i | 0 <= i < |parts|
        ensures PartOk(parts[i]) && (parts[i].Slot? ==> ValueBraceFree(p, parts[i].key))
      {
        if i < |front| {
          assert parts[i] == front[i];
        }
      }
    }
  }

  /** A format of one part. */
  lemma Single(p: ProductName, x: Part)
    requires PartOk(x) && (x.Slot? ==> ValueBraceFree(p, x.key))
    ensures Admissible(p, [x])
    ensures Format([x]) == Spell(x)
    ensures Render(p, [x]) == Out(p, x)
  {
    assert [x][..0] == [];
    assert Spell(x) + "" == Spell(x);
    assert Out(p, x) + "" == Out(p, x);
  }

  /** One part more at the end of a format. */
  lemma Snoc(p: ProductName, parts: seq<Part>, x: Part)
    requires Admissible(p, parts) && PartOk(x) && (x.Slot? ==> ValueBraceFree(p, x.key))
    ensures Admissible(p, parts + [x])
    ensures Format(parts + [x]) == Format(parts) + Spell(x)
    ensures Render(p, parts + [x]) == Render(p, parts) + Out(p, x)
  {
    assert (parts + [x])[..|parts|] == parts;
    FormatSnoc(parts, x);
    RenderSnoc(p, parts, x);
  }

  lemma {:induction false} FormatSnoc(parts: seq<Part>, x: Part)
    ensures Format(parts + [x]) == Format(parts) + Spell(x)
  {
    FormatAppend(parts, [x]);
    assert Format([x]) == Spell(x) + Format([]);
  }

  lemma {:induction false} RenderSnoc(p: ProductName, parts: seq<Part>, x: Part)
    ensures Render(p, parts + [x]) == Render(p, parts) + Out(p, x)
  {
    if parts == [] {
      assert parts + [x] == [x];
    } else {
      assert (parts + [x])[1..] == parts[1..] + [x];
      RenderSnoc(p, parts[1..], x);
    }
  }

  // The placeholder of each key the presets use, spelled out.

  lemma SpellingName()
    ensures Placeholder(NAME) == "{NAME}"
  {
  }

  lemma SpellingVersion()
    ensures Placeholder(VERSION) == "{VERSION}"
  {
  }

  lemma SpellingGitRef()
    ensures Placeholder(GIT_REF) == "{GIT_REF}"
  {
  }

  lemma SpellingGitHash()
    ensures Placeholder(GIT_HASH) == "{GIT_HASH}"
  {
  }

  lemma SpellingGitDirty()
    ensures Placeholder(GIT_DIRTY) == "{GIT_DIRTY}"
  {
  }

  lemma SpellingGitDirtyStar()
    ensures Placeholder(GIT_DIRTY_STAR) == "{GIT_DIRTY_STAR}"
  {
  }

  lemma SpellingGitAuthor()
    ensures Placeholder(GIT_AUTHOR) == "{GIT_AUTHOR}"
  {
  }

  lemma SpellingBuildHost()
    ensures Placeholder(BUILD_HOST) == "{BUILD_HOST}"
  {
  }

  lemma SpellingBuildOs()
    ensures Placeholder(BUILD_OS) == "{BUILD_OS}"
  {
  }

  lemma SpellingBuildOsVersion()
    ensures Placeholder(BUILD_OS_VERSION) == "{BUILD_OS_VERSION}"
  {
  }

  lemma SpellingBuildOsLong()
    ensures Placeholder(BUILD_OS_LONG) == "{BUILD_OS_LONG}"
  {
  }

  lemma SpellingBuildArch()
    ensures Placeholder(BUILD_ARCH) == "{BUILD_ARCH}"
  {
  }

  lemma SpellingNameVersion()
    ensures Placeholder(NAME) == "{NAME}"
    ensures Placeholder(VERSION) == "{VERSION}"
  {
    SpellingName();
    SpellingVersion();
  }

  lemma SpellingGit()
    ensures Placeholder(GIT_REF) == "{GIT_REF}"
    ensures Placeholder(GIT_HASH) == "{GIT_HASH}"
    ensures Placeholder(GIT_DIRTY) == "{GIT_DIRTY}"
    ensures Placeholder(GIT_DIRTY_STAR) == "{GIT_DIRTY_STAR}"
    ensures Placeholder(GIT_AUTHOR) == "{GIT_AUTHOR}"
  {
    SpellingGitRef();
    SpellingGitHash();
    SpellingGitDirty();
    SpellingGitDirtyStar();
    SpellingGitAuthor();
  }

  lemma SpellingBuild()
    ensures Placeholder(BUILD_HOST) == "{BUILD_HOST}"
    ensures Placeholder(BUILD_OS) == "{BUILD_OS}"
    ensures Placeholder(BUILD_OS_VERSION) == "{BUILD_OS_VERSION}"
    ensures Placeholder(BUILD_OS_LONG) == "{BUILD_OS_LONG}"
    ensures Placeholder(BUILD_ARCH) == "{BUILD_ARCH}"
  {
    SpellingBuildHost();
    SpellingBuildOs();
    SpellingBuildOsVersion();
    SpellingBuildOsLong();
    SpellingBuildArch();
  }

  lemma ShortSpelling()
    ensures Spell(Slot(NAME)) + Spell(Lit(" v")) + Spell(Slot(VERSION)) == SHORT
  {
    SpellingNameVersion();
    ShortText();
  }

  /** `SHORT` resolves each placeholder it holds once. */
  lemma ShortPreset(p: ProductName)
    requires ValueBraceFree(p, NAME) && ValueBraceFree(p, VERSION)
    ensures Descriptor(p, SHORT) == Resolved(p, NAME) + " v" + Resolved(p, VERSION)
  {
    Single(p, Slot(NAME));
    var ps := [Slot(NAME)];
    Snoc(p, ps, Lit(" v"));
    ps := ps + [Lit(" v")];
    Snoc(p, ps, Slot(VERSION));
    ps := ps + [Slot(VERSION)];
    assert Format(ps) == Spell(Slot(NAME)) + Spell(Lit(" v")) + Spell(Slot(VERSION));
    assert Render(p, ps) == Out(p, Slot(NAME)) + Out(p, Lit(" v")) + Out(p, Slot(VERSION));
    ShortSpelling();
    AdmissibleOk(p, ps);
    DescriptorIsSinglePass(p, ps);
  }

  lemma DefaultSpelling()
    ensures Spell(Slot(NAME)) + Spell(Lit(" v")) + Spell(Slot(VERSION)) + Spell(Lit(" (")) + Spell(Slot(GIT_REF)) + Spell(Lit("@")) + Spell(Slot(GIT_HASH)) + Spell(Lit(")")) == DEFAULT
  {
    SpellingNameVersion();
    SpellingGit();
    DefaultText();
  }

  /** `DEFAULT` resolves each placeholder it holds once. */
  lemma DefaultPreset(p: ProductName)
    requires ValueBraceFree(p, NAME) && ValueBraceFree(p, VERSION) && ValueBraceFree(p, GIT_REF) && ValueBraceFree(p, GIT_HASH)
    ensures Descriptor(p, DEFAULT) == Resolved(p, NAME) + " v" + Resolved(p, VERSION) + " (" + Resolved(p, GIT_REF) + "@" + Resolved(p, GIT_HASH) + ")"
  {
    Single(p, Slot(NAME));
    var ps := [Slot(NAME)];
    Snoc(p, ps, Lit(" v"));
    ps := ps + [Lit(" v")];
    Snoc(p, ps, Slot(VERSION));
    ps := ps + [Slot(VERSION)];
    Snoc(p, ps, Lit(" ("));
    ps := ps + [Lit(" (")];
    Snoc(p, ps, Slot(GIT_REF));
    ps := ps + [Slot(GIT_REF)];
    Snoc(p, ps, Lit("@"));
    ps := ps + [Lit("@")];
    Snoc(p, ps, Slot(GIT_HASH));
    ps := ps + [Slot(GIT_HASH)];
    Snoc(p, ps, Lit(")"));
    ps := ps + [Lit(")")];
    assert Format(ps) == Spell(Slot(NAME)) + Spell(Lit(" v")) + Spell(Slot(VERSION)) + Spell(Lit(" (")) + Spell(Slot(GIT_REF)) + Spell(Lit("@")) + Spell(Slot(GIT_HASH)) + Spell(Lit(")"));
    assert Render(p, ps) == Out(p, Slot(NAME)) + Out(p, Lit(" v")) + Out(p, Slot(VERSION)) + Out(p, Lit(" (")) + Out(p, Slot(GIT_REF)) + Out(p, Lit("@")) + Out(p, Slot(GIT_HASH)) + Out(p, Lit(")"));
    DefaultSpelling();
    AdmissibleOk(p, ps);
    DescriptorIsSinglePass(p, ps);
  }

  lemma DefaultDirtySpelling()
    ensures Spell(Slot(NAME)) + Spell(Lit(" v")) + Spell(Slot(VERSION)) + Spell(Lit(" (")) + Spell(Slot(GIT_REF)) + Spell(Lit("@")) + Spell(Slot(GIT_HASH)) + Spell(Slot(GIT_DIRTY_STAR)) + Spell(Lit(")")) == DEFAULT_DIRTY
  {
    SpellingNameVersion();
    SpellingGit();
    DefaultDirtyText();
  }

  /** `DEFAULT_DIRTY` resolves each placeholder it holds once. */
  lemma DefaultDirtyPreset(p: ProductName)
    requires ValueBraceFree(p, NAME) && ValueBraceFree(p, VERSION) && ValueBraceFree(p, GIT_REF)
    requires ValueBraceFree(p, GIT_HASH) && ValueBraceFree(p, GIT_DIRTY_STAR)
    ensures Descriptor(p, DEFAULT_DIRTY) == Resolved(p, NAME) + " v" + Resolved(p, VERSION) + " (" + Resolved(p, GIT_REF) + "@" + Resolved(p, GIT_HASH) + Resolved(p, GIT_DIRTY_STAR) + ")"
  {
    Single(p, Slot(NAME));
    var ps := [Slot(NAME)];
    Snoc(p, ps, Lit(" v"));
    ps := ps + [Lit(" v")];
    Snoc(p, ps, Slot(VERSION));
    ps := ps + [Slot(VERSION)];
    Snoc(p, ps, Lit(" ("));
    ps := ps + [Lit(" (")];
    Snoc(p, ps, Slot(GIT_REF));
    ps := ps + [Slot(GIT_REF)];
    Snoc(p, ps, Lit("@"));
    ps := ps + [Lit("@")];
    Snoc(p, ps, Slot(GIT_HASH));
    ps := ps + [Slot(GIT_HASH)];
    Snoc(p, ps, Slot(GIT_DIRTY_STAR));
    ps := ps + [Slot(GIT_DIRTY_STAR)];
    Snoc(p, ps, Lit(")"));
    ps := ps + [Lit(")")];
    assert Format(ps) == Spell(Slot(NAME)) + Spell(Lit(" v")) + Spell(Slot(VERSION)) + Spell(Lit(" (")) + Spell(Slot(GIT_REF)) + Spell(Lit("@")) + Spell(Slot(GIT_HASH)) + Spell(Slot(GIT_DIRTY_STAR)) + Spell(Lit(")"));
    assert Render(p, ps) == Out(p, Slot(NAME)) + Out(p, Lit(" v")) + Out(p, Slot(VERSION)) + Out(p, Lit(" (")) + Out(p, Slot(GIT_REF)) + Out(p, Lit("@")) + Out(p, Slot(GIT_HASH)) + Out(p, Slot(GIT_DIRTY_STAR)) + Out(p, Lit(")"));
    DefaultDirtySpelling();
    AdmissibleOk(p, ps);
    DescriptorIsSinglePass(p, ps);
  }

  lemma LongSpelling()
    ensures Spell(Slot(NAME)) + Spell(Lit(" v")) + Spell(Slot(VERSION)) + Spell(Lit(" | ")) + Spell(Slot(GIT_REF)) + Spell(Lit("@")) + Spell(Slot(GIT_HASH)) + Spell(Lit(" | ")) + Spell(Slot(BUILD_HOST)) + Spell(Lit(" (")) + Spell(Slot(BUILD_OS)) + Spell(Lit(" ")) + Spell(Slot(BUILD_OS_VERSION)) + Spell(Lit(")")) == LONG
  {
    SpellingNameVersion();
    SpellingGit();
    SpellingBuild();
    LongText();
  }

  /** `LONG` resolves each placeholder it holds once. */
  lemma LongPreset(p: ProductName)
    requires ValueBraceFree(p, NAME) && ValueBraceFree(p, VERSION) && ValueBraceFree(p, GIT_REF) && ValueBraceFree(p, GIT_HASH)
    requires ValueBraceFree(p, BUILD_HOST) && ValueBraceFree(p, BUILD_OS) && ValueBraceFree(p, BUILD_OS_VERSION)
    ensures Descriptor(p, LONG) == Resolved(p, NAME) + " v" + Resolved(p, VERSION) + " | " + Resolved(p, GIT_REF) + "@" + Resolved(p, GIT_HASH) + " | " + Resolved(p, BUILD_HOST) + " (" + Resolved(p, BUILD_OS) + " " + Resolved(p, BUILD_OS_VERSION) + ")"
  {
    var ps := LongParts(p);
    LongSpelling();
    AdmissibleOk(p, ps);
    DescriptorIsSinglePass(p, ps);
  }

  /** The parts of `LONG`, built one at a time. */
  lemma LongParts(p: ProductName) returns (ps: seq<Part>)
    requires ValueBraceFree(p, NAME) && ValueBraceFree(p, VERSION) && ValueBraceFree(p, GIT_REF) && ValueBraceFree(p, GIT_HASH)
    requires ValueBraceFree(p, BUILD_HOST) && ValueBraceFree(p, BUILD_OS) && ValueBraceFree(p, BUILD_OS_VERSION)
    ensures Admissible(p, ps)
    ensures Format(ps) == Spell(Slot(NAME)) + Spell(Lit(" v")) + Spell(Slot(VERSION)) + Spell(Lit(" | ")) + Spell(Slot(GIT_REF)) + Spell(Lit("@")) + Spell(Slot(GIT_HASH)) + Spell(Lit(" | ")) + Spell(Slot(BUILD_HOST)) + Spell(Lit(" (")) + Spell(Slot(BUILD_OS)) + Spell(Lit(" ")) + Spell(Slot(BUILD_OS_VERSION)) + Spell(Lit(")"))
    ensures Render(p, ps) == Out(p, Slot(NAME)) + Out(p, Lit(" v")) + Out(p, Slot(VERSION)) + Out(p, Lit(" | ")) + Out(p, Slot(GIT_REF)) + Out(p, Lit("@")) + Out(p, Slot(GIT_HASH)) + Out(p, Lit(" | ")) + Out(p, Slot(BUILD_HOST)) + Out(p, Lit(" (")) + Out(p, Slot(BUILD_OS)) + Out(p, Lit(" ")) + Out(p, Slot(BUILD_OS_VERSION)) + Out(p, Lit(")"))
  {
    Single(p, Slot(NAME));
    ps := [Slot(NAME)];
    Snoc(p, ps, Lit(" v"));
    ps := ps + [Lit(" v")];
    Snoc(p, ps, Slot(VERSION));
    ps := ps + [Slot(VERSION)];
    Snoc(p, ps, Lit(" | "));
    ps := ps + [Lit(" | ")];
    Snoc(p, ps, Slot(GIT_REF));
    ps := ps + [Slot(GIT_REF)];
    Snoc(p, ps, Lit("@"));
    ps := ps + [Lit("@")];
    Snoc(p, ps, Slot(GIT_HASH));
    ps := ps + [Slot(GIT_HASH)];
    Snoc(p, ps, Lit(" | "));
    ps := ps + [Lit(" | ")];
    Snoc(p, ps, Slot(BUILD_HOST));
    ps := ps + [Slot(BUILD_HOST)];
    Snoc(p, ps, Lit(" ("));
    ps := ps + [Lit(" (")];
    Snoc(p, ps, Slot(BUILD_OS));
    ps := ps + [Slot(BUILD_OS)];
    Snoc(p, ps, Lit(" "));
    ps := ps + [Lit(" ")];
    Snoc(p, ps, Slot(BUILD_OS_VERSION));
    ps := ps + [Slot(BUILD_OS_VERSION)];
    Snoc(p, ps, Lit(")"));
    ps := ps + [Lit(")")];
  }


  lemma FullSpelling()
    ensures Spell(Slot(NAME)) + Spell(Lit(" v")) + Spell(Slot(VERSION)) + Spell(Lit(" | ")) + Spell(Slot(GIT_REF)) + Spell(Lit("@")) + Spell(Slot(GIT_HASH)) + Spell(Lit(" ")) + Spell(Slot(GIT_DIRTY)) + Spell(Lit(" | ")) + Spell(Slot(GIT_AUTHOR)) + Spell(Lit(" | ")) + Spell(Slot(BUILD_HOST)) + Spell(Lit(" (")) + Spell(Slot(BUILD_OS_LONG)) + Spell(Lit(" ")) + Spell(Slot(BUILD_ARCH)) + Spell(Lit(")")) == FULL
  {
    SpellingNameVersion();
    SpellingGit();
    SpellingBuild();
    FullText();
  }

  /** `FULL` resolves each placeholder it holds once. */
  lemma FullPreset(p: ProductName)
    requires ValueBraceFree(p, NAME) && ValueBraceFree(p, VERSION) && ValueBraceFree(p, GIT_REF) && ValueBraceFree(p, GIT_HASH) && ValueBraceFree(p, GIT_DIRTY)
    requires ValueBraceFree(p, GIT_AUTHOR) && ValueBraceFree(p, BUILD_HOST) && ValueBraceFree(p, BUILD_OS_LONG) && ValueBraceFree(p, BUILD_ARCH)
    ensures Descriptor(p, FULL) == Resolved(p, NAME) + " v" + Resolved(p, VERSION) + " | " + Resolved(p, GIT_REF) + "@" + Resolved(p, GIT_HASH) + " " + Resolved(p, GIT_DIRTY) + " | " + Resolved(p, GIT_AUTHOR) + " | " + Resolved(p, BUILD_HOST) + " (" + Resolved(p, BUILD_OS_LONG) + " " + Resolved(p, BUILD_ARCH) + ")"
  {
    var ps := FullParts(p);
    FullSpelling();
    AdmissibleOk(p, ps);
    DescriptorIsSinglePass(p, ps);
  }

  /** The parts of `FULL`, built one at a time. */
  lemma FullParts(p: ProductName) returns (ps: seq<Part>)
    requires ValueBraceFree(p, NAME) && ValueBraceFree(p, VERSION) && ValueBraceFree(p, GIT_REF) && ValueBraceFree(p, GIT_HASH) && ValueBraceFree(p, GIT_DIRTY)
    requires ValueBraceFree(p, GIT_AUTHOR) && ValueBraceFree(p, BUILD_HOST) && ValueBraceFree(p, BUILD_OS_LONG) && ValueBraceFree(p, BUILD_ARCH)
    ensures Admissible(p, ps)
    ensures Format(ps) == Spell(Slot(NAME)) + Spell(Lit(" v")) + Spell(Slot(VERSION)) + Spell(Lit(" | ")) + Spell(Slot(GIT_REF)) + Spell(Lit("@")) + Spell(Slot(GIT_HASH)) + Spell(Lit(" ")) + Spell(Slot(GIT_DIRTY)) + Spell(Lit(" | ")) + Spell(Slot(GIT_AUTHOR)) + Spell(Lit(" | ")) + Spell(Slot(BUILD_HOST)) + Spell(Lit(" (")) + Spell(Slot(BUILD_OS_LONG)) + Spell(Lit(" ")) + Spell(Slot(BUILD_ARCH)) + Spell(Lit(")"))
    ensures Render(p, ps) == Out(p, Slot(NAME)) + Out(p, Lit(" v")) + Out(p, Slot(VERSION)) + Out(p, Lit(" | ")) + Out(p, Slot(GIT_REF)) + Out(p, Lit("@")) + Out(p, Slot(GIT_HASH)) + Out(p, Lit(" ")) + Out(p, Slot(GIT_DIRTY)) + Out(p, Lit(" | ")) + Out(p, Slot(GIT_AUTHOR)) + Out(p, Lit(" | ")) + Out(p, Slot(BUILD_HOST)) + Out(p, Lit(" (")) + Out(p, Slot(BUILD_OS_LONG)) + Out(p, Lit(" ")) + Out(p, Slot(BUILD_ARCH)) + Out(p, Lit(")"))
  {
    Single(p, Slot(NAME));
    ps := [Slot(NAME)];
    Snoc(p, ps, Lit(" v"));
    ps := ps + [Lit(" v")];
    Snoc(p, ps, Slot(VERSION));
    ps := ps + [Slot(VERSION)];
    Snoc(p, ps, Lit(" | "));
    ps := ps + [Lit(" | ")];
    Snoc(p, ps, Slot(GIT_REF));
    ps := ps + [Slot(GIT_REF)];
    Snoc(p, ps, Lit("@"));
    ps := ps + [Lit("@")];
    Snoc(p, ps, Slot(GIT_HASH));
    ps := ps + [Slot(GIT_HASH)];
    Snoc(p, ps, Lit(" "));
    ps := ps + [Lit(" ")];
    Snoc(p, ps, Slot(GIT_DIRTY));
    ps := ps + [Slot(GIT_DIRTY)];
    Snoc(p, ps, Lit(" | "));
    ps := ps + [Lit(" | ")];
    Snoc(p, ps, Slot(GIT_AUTHOR));
    ps := ps + [Slot(GIT_AUTHOR)];
    Snoc(p, ps, Lit(" | "));
    ps := ps + [Lit(" | ")];
    Snoc(p, ps, Slot(BUILD_HOST));
    ps := ps + [Slot(BUILD_HOST)];
    Snoc(p, ps, Lit(" ("));
    ps := ps + [Lit(" (")];
    Snoc(p, ps, Slot(BUILD_OS_LONG));
    ps := ps + [Slot(BUILD_OS_LONG)];
    Snoc(p, ps, Lit(" "));
    ps := ps + [Lit(" ")];
    Snoc(p, ps, Slot(BUILD_ARCH));
    ps := ps + [Slot(BUILD_ARCH)];
    Snoc(p, ps, Lit(")"));
    ps := ps + [Lit(")")];
  }





  lemma UserAgentSpelling()
    ensures Spell(Slot(NAME)) + Spell(Lit("/")) + Spell(Slot(VERSION)) + Spell(Lit(" (")) + Spell(Slot(BUILD_OS)) + Spell(Lit("; ")) + Spell(Slot(BUILD_ARCH)) + Spell(Lit(")")) == USER_AGENT
  {
    SpellingNameVersion();
    SpellingBuild();
    UserAgentText();
  }

  /** `USER_AGENT` resolves each placeholder it holds once. */
  lemma UserAgentPreset(p: ProductName)
    requires ValueBraceFree(p, NAME) && ValueBraceFree(p, VERSION) && ValueBraceFree(p, BUILD_OS) && ValueBraceFree(p, BUILD_ARCH)
    ensures Descriptor(p, USER_AGENT) == Resolved(p, NAME) + "/" + Resolved(p, VERSION) + " (" + Resolved(p, BUILD_OS) + "; " + Resolved(p, BUILD_ARCH) + ")"
  {
    Single(p, Slot(NAME));
    var ps := [Slot(NAME)];
    Snoc(p, ps, Lit("/"));
    ps := ps + [Lit("/")];
    Snoc(p, ps, Slot(VERSION));
    ps := ps + [Slot(VERSION)];
    Snoc(p, ps, Lit(" ("));
    ps := ps + [Lit(" (")];
    Snoc(p, ps, Slot(BUILD_OS));
    ps := ps + [Slot(BUILD_OS)];
    Snoc(p, ps, Lit("; "));
    ps := ps + [Lit("; ")];
    Snoc(p, ps, Slot(BUILD_ARCH));
    ps := ps + [Slot(BUILD_ARCH)];
    Snoc(p, ps, Lit(")"));
    ps := ps + [Lit(")")];
    assert Format(ps) == Spell(Slot(NAME)) + Spell(Lit("/")) + Spell(Slot(VERSION)) + Spell(Lit(" (")) + Spell(Slot(BUILD_OS)) + Spell(Lit("; ")) + Spell(Slot(BUILD_ARCH)) + Spell(Lit(")"));
    assert Render(p, ps) == Out(p, Slot(NAME)) + Out(p, Lit("/")) + Out(p, Slot(VERSION)) + Out(p, Lit(" (")) + Out(p, Slot(BUILD_OS)) + Out(p, Lit("; ")) + Out(p, Slot(BUILD_ARCH)) + Out(p, Lit(")"));
    UserAgentSpelling();
    AdmissibleOk(p, ps);
    DescriptorIsSinglePass(p, ps);
  }

  lemma GitRefShortSpelling()
    ensures Spell(Slot(GIT_REF)) + Spell(Lit("@")) + Spell(Slot(GIT_HASH)) == GIT_REF_SHORT
  {
    SpellingGit();
    GitRefShortText();
  }

  /** `GIT_REF_SHORT` resolves each placeholder it holds once. */
  lemma GitRefShortPreset(p: ProductName)
    requires ValueBraceFree(p, GIT_REF) && ValueBraceFree(p, GIT_HASH)
    ensures Descriptor(p, GIT_REF_SHORT) == Resolved(p, GIT_REF) + "@" + Resolved(p, GIT_HASH)
  {
    Single(p, Slot(GIT_REF));
    var ps := [Slot(GIT_REF)];
    Snoc(p, ps, Lit("@"));
    ps := ps + [Lit("@")];
    Snoc(p, ps, Slot(GIT_HASH));
    ps := ps + [Slot(GIT_HASH)];
    assert Format(ps) == Spell(Slot(GIT_REF)) + Spell(Lit("@")) + Spell(Slot(GIT_HASH));
    assert Render(p, ps) == Out(p, Slot(GIT_REF)) + Out(p, Lit("@")) + Out(p, Slot(GIT_HASH));
    GitRefShortSpelling();
    AdmissibleOk(p, ps);
    DescriptorIsSinglePass(p, ps);
  }


  // ---------------------------------------------------------------------
  // The presets in the two branches
  // ---------------------------------------------------------------------

  /** Without a build record the name and version are filled, `{GIT_DIRTY_STAR}` stays, and every other key is cleared. */
  lemma ResolvedWithoutBuild(p: ProductName, k: Key)
    requires p.build.None?
    ensures Resolved(p, k) == if k == NAME then Name(p)
                              else if k == VERSION then Version(p)
                              else if k == GIT_DIRTY_STAR then Placeholder(GIT_DIRTY_STAR)
                              else ""
  {
    KeysWithoutBuild(p, k);
  }

  /** With a build record every key is replaced by its value. */
  lemma ResolvedWithBuild(p: ProductName, k: Key)
    requires p.build.Some?
    ensures Resolved(p, k) == Value(p, k)
  {
    AllKeysWithBuild(p, k);
  }

  /** Cleared placeholders leave nothing between the pieces of literal text around them. */
  lemma ClearedPieces(a: string)
    ensures a + " (" + "" + "@" + "" + ")" == a + " (@)"
    ensures a + " (" + "" + "@" + "" + "{GIT_DIRTY_STAR}" + ")" == a + " (@{GIT_DIRTY_STAR})"
    ensures a + " | " + "" + "@" + "" + " | " + "" + " (" + "" + " " + "" + ")" == a + " | @ |  ( )"
    ensures a + " | " + "" + "@" + "" + " " + "" + " | " + "" + " | " + "" + " (" + "" + " " + "" + ")" == a + " | @  |  |  ( )"
    ensures a + " (" + "" + "; " + "" + ")" == a + " (; )"
    ensures "" + "@" + "" == "@"
  {
  }

  // Without a build record, and with a name and a version free of `{`, each
  // preset keeps only the name, the version and its own literal text.

  lemma ShortWithoutBuild(p: ProductName)
    requires p.build.None? && '{' !in Name(p) && '{' !in Version(p)
    ensures Descriptor(p, SHORT) == Name(p) + " v" + Version(p)
  {
    ResolvedWithoutBuild(p, NAME);
    ResolvedWithoutBuild(p, VERSION);
    ShortPreset(p);
  }

  lemma DefaultWithoutBuild(p: ProductName)
    requires p.build.None? && '{' !in Name(p) && '{' !in Version(p)
    ensures Descriptor(p, DEFAULT) == Name(p) + " v" + Version(p) + " (@)"
  {
    ResolvedWithoutBuild(p, NAME);
    ResolvedWithoutBuild(p, VERSION);
    ResolvedWithoutBuild(p, GIT_REF);
    ResolvedWithoutBuild(p, GIT_HASH);
    DefaultPreset(p);
    ClearedPieces(Name(p) + " v" + Version(p));
  }

  lemma DefaultDirtyWithoutBuild(p: ProductName)
    requires p.build.None? && '{' !in Name(p) && '{' !in Version(p)
    ensures Descriptor(p, DEFAULT_DIRTY) == Name(p) + " v" + Version(p) + " (@{GIT_DIRTY_STAR})"
  {
    ResolvedWithoutBuild(p, NAME);
    ResolvedWithoutBuild(p, VERSION);
    ResolvedWithoutBuild(p, GIT_REF);
    ResolvedWithoutBuild(p, GIT_HASH);
    ResolvedWithoutBuild(p, GIT_DIRTY_STAR);
    DefaultDirtyPreset(p);
    SpellingGit();
    ClearedPieces(Name(p) + " v" + Version(p));
  }

  lemma LongWithoutBuild(p: ProductName)
    requires p.build.None? && '{' !in Name(p) && '{' !in Version(p)
    ensures Descriptor(p, LONG) == Name(p) + " v" + Version(p) + " | @ |  ( )"
  {
    ResolvedWithoutBuild(p, NAME);
    ResolvedWithoutBuild(p, VERSION);
    ResolvedWithoutBuild(p, GIT_REF);
    ResolvedWithoutBuild(p, GIT_HASH);
    ResolvedWithoutBuild(p, BUILD_HOST);
    ResolvedWithoutBuild(p, BUILD_OS);
    ResolvedWithoutBuild(p, BUILD_OS_VERSION);
    LongPreset(p);
    ClearedPieces(Name(p) + " v" + Version(p));
  }

  lemma FullWithoutBuild(p: ProductName)
    requires p.build.None? && '{' !in Name(p) && '{' !in Version(p)
    ensures Descriptor(p, FULL) == Name(p) + " v" + Version(p) + " | @  |  |  ( )"
  {
    ResolvedWithoutBuild(p, NAME);
    ResolvedWithoutBuild(p, VERSION);
    ResolvedWithoutBuild(p, GIT_REF);
    ResolvedWithoutBuild(p, GIT_HASH);
    ResolvedWithoutBuild(p, GIT_DIRTY);
    ResolvedWithoutBuild(p, GIT_AUTHOR);
    ResolvedWithoutBuild(p, BUILD_HOST);
    ResolvedWithoutBuild(p, BUILD_OS_LONG);
    ResolvedWithoutBuild(p, BUILD_ARCH);
    FullPreset(p);
    ClearedPieces(Name(p) + " v" + Version(p));
  }

  lemma UserAgentWithoutBuild(p: ProductName)
    requires p.build.None? && '{' !in Name(p) && '{' !in Version(p)
    ensures Descriptor(p, USER_AGENT) == Name(p) + "/" + Version(p) + " (; )"
  {
    ResolvedWithoutBuild(p, NAME);
    ResolvedWithoutBuild(p, VERSION);
    ResolvedWithoutBuild(p, BUILD_OS);
    ResolvedWithoutBuild(p, BUILD_ARCH);
    UserAgentPreset(p);
    ClearedPieces(Name(p) + "/" + Version(p));
  }

  lemma GitRefShortWithoutBuild(p: ProductName)
    requires p.build.None?
    ensures Descriptor(p, GIT_REF_SHORT) == "@"
  {
    ResolvedWithoutBuild(p, GIT_REF);
    ResolvedWithoutBuild(p, GIT_HASH);
    GitRefShortPreset(p);
    ClearedPieces("");
  }


  /** With a build record the branch, the short hash and the dirty star come from the git section. */
  lemma RefValues(p: ProductName)
    requires p.build.Some?
    ensures var git := p.build.value.git;
            && Value(p, GIT_REF) == OrEmpty(git.branch)
            && Value(p, GIT_HASH) == git.commitShortHash
            && Value(p, GIT_DIRTY_STAR) == if git.dirty then "*" else ""
  {
  }

  /** With a build record `DEFAULT_DIRTY` shows the branch, the short hash and the dirty star. */
  lemma DefaultDirtyWithBuild(p: ProductName)
    requires p.build.Some? && '{' !in Name(p) && '{' !in Version(p)
    requires '{' !in OrEmpty(p.build.value.git.branch) && '{' !in p.build.value.git.commitShortHash
    ensures var git := p.build.value.git;
            Descriptor(p, DEFAULT_DIRTY)
            == Name(p) + " v" + Version(p) + " (" + OrEmpty(git.branch) + "@" + git.commitShortHash
               + (if git.dirty then "*" else "") + ")"
  {
    ResolvedWithBuild(p, NAME);
    ResolvedWithBuild(p, VERSION);
    ResolvedWithBuild(p, GIT_REF);
    ResolvedWithBuild(p, GIT_HASH);
    ResolvedWithBuild(p, GIT_DIRTY_STAR);
    RefValues(p);
    DefaultDirtyPreset(p);
  }

  // ---------------------------------------------------------------------
  // The chain is sequential
  // ---------------------------------------------------------------------

  /**
   * A value that spells a later key is expanded by the later step: a product
   * whose base is `{VERSION}` renders `{NAME}` as its version, where a single
   * pass over the format would have left `{VERSION}`.
   */
  lemma NameIsExpandedByLaterKeys(version: string)
    requires '{' !in version
    ensures var p := New(Placeholder(VERSION), version, None);
            && Descriptor(p, Placeholder(NAME)) == version
            && Render(p, [Slot(NAME)]) == Placeholder(VERSION)
  {
    var p := New(Placeholder(VERSION), version, None);
    NameOfNew(Placeholder(VERSION), version, None);
    var bs := Chain(p);
    var ks := ChainKeys(p);
    assert ks[0] == NAME && ks[1] == VERSION;
    assert Value(p, NAME) == Placeholder(VERSION);
    assert Value(p, VERSION) == version;
    assert bs[0] == Binding(Placeholder(NAME), Placeholder(VERSION));
    assert bs[1] == Binding(Placeholder(VERSION), version);
    ReplaceWhole(Placeholder(NAME), Placeholder(VERSION));
    ReplaceWhole(Placeholder(VERSION), version);
    assert bs[1..][1..] == bs[2..];
    calc {
      Descriptor(p, Placeholder(NAME));
      ApplyAll(Replace(Placeholder(NAME), Placeholder(NAME), Placeholder(VERSION)), bs[1..]);
      ApplyAll(Placeholder(VERSION), bs[1..]);
      ApplyAll(Replace(Placeholder(VERSION), Placeholder(VERSION), version), bs[2..]);
      ApplyAll(version, bs[2..]);
      { ApplyAllBraceFree(version, bs[2..]); }
      version;
    }
    ResolvedWithoutBuild(p, NAME);
  }
}
