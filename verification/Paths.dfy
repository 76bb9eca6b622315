/** Path safety: normalization, resolution through existing ancestors, and the write roots that must stay apart. */
module Paths {
  import opened Text

  // ----- paths -----

  /** A path component after the root; the root itself is the `absolute` flag. */
  datatype Part = CurDir | ParentDir | Normal(name: string)

  datatype Path = Path(absolute: bool, parts: seq<Part>)

  /** A normalized absolute path: the names under the root. */
  type Names = seq<string>

  function PartsOf(names: Names): (parts: seq<Part>)
    ensures |parts| == |names|
  {
    seq(|names|, i requires 0 <= i < |names| => Normal(names[i]))
  }

  function Parent(names: Names): Names {
    if names == [] then [] else names[..|names| - 1]
  }

  /** What one component does to the names so far; `..` stops at the root. */
  function Walked(names: Names, part: Part): Names {
    match part
    case CurDir => names
    case ParentDir => Parent(names)
    case Normal(name) => names + [name]
  }

  function Normalized(parts: seq<Part>): Names {
    if parts == [] then [] else Walked(Normalized(parts[..|parts| - 1]), parts[|parts| - 1])
  }

  /** `normalize_path`. */
  method NormalizePath(path: Path) returns (normalized: Path)
    ensures normalized == Path(path.absolute, PartsOf(Normalized(path.parts)))
  {
    var names: Names := [];
    for next := 0 to |path.parts|
      invariant names == Normalized(path.parts[..next])
    {
      assert path.parts[..next + 1][..next] == path.parts[..next];
      match path.parts[next]
      case CurDir =>
      case ParentDir =>
        if names != [] {
          names := names[..|names| - 1];
        }
      case Normal(name) =>
        names := names + [name];
    }
    assert path.parts[..|path.parts|] == path.parts;
    normalized := Path(path.absolute, PartsOf(names));
  }

  lemma {:induction false} NormalizedPlain(names: Names)
    ensures Normalized(PartsOf(names)) == names
  {
    if names != [] {
      var most := names[..|names| - 1];
      NormalizedPlain(most);
      assert PartsOf(names)[..|names| - 1] == PartsOf(most);
    }
  }

  /** Normalizing a normalized beginning changes nothing: normalization is idempotent and can be done piecewise. */
  lemma {:induction false} NormalizedConcat(a: seq<Part>, b: seq<Part>)
    ensures Normalized(a + b) == Normalized(PartsOf(Normalized(a)) + b)
    decreases |b|
  {
    if b == [] {
      NormalizedPlain(Normalized(a));
      assert a + b == a && PartsOf(Normalized(a)) + b == PartsOf(Normalized(a));
    } else {
      var most := b[..|b| - 1];
      NormalizedConcat(a, most);
      assert (a + b)[..|a + b| - 1] == a + most;
      var p := PartsOf(Normalized(a));
      assert (p + b)[..|p + b| - 1] == p + most;
    }
  }

  // ----- a file system with links -----

  datatype Node = Directory | File | Link(target: Path)

  /** The entries by their physical path. */
  type FileSystem = map<Names, Node>

  ghost predicate HasRoot(fs: FileSystem) {
    [] in fs && fs[[]] == Directory
  }

  datatype PathError = NotFound | NotADirectory | TooManyLinks | UnsafeLink

  datatype Lookup<+T> = Found(value: T) | Failed(error: PathError)

  /** How many links the operating system follows in one lookup. */
  const MAX_LINKS := 40

  /** The physical path that the components lead to from a physical directory, following every link. */
  function Follow(fs: FileSystem, base: Names, parts: seq<Part>, links: nat): Lookup<Names>
    decreases links, |parts|
  {
    if parts == [] then Found(base)
    else if base !in fs || fs[base] != Directory then Failed(NotADirectory)
    else
      match parts[0]
      case CurDir => Follow(fs, base, parts[1..], links)
      case ParentDir => Follow(fs, Parent(base), parts[1..], links)
      case Normal(name) =>
        var next := base + [name];
        if next !in fs then Failed(NotFound)
        else
          match fs[next]
          case Link(target) =>
            if links == 0 then Failed(TooManyLinks)
            else Follow(fs, if target.absolute then [] else base, target.parts + parts[1..], links - 1)
          case _ => Follow(fs, next, parts[1..], links)
  }

  /** `canonicalize`. */
  function Canonicalize(fs: FileSystem, names: Names): Lookup<Names> {
    Follow(fs, [], PartsOf(names), MAX_LINKS)
  }

  /** `symlink_metadata`: the entry of the last name in the directory that the names before it lead to. */
  function SymlinkMetadata(fs: FileSystem, names: Names): Lookup<Node>
  {
    if names == [] then if [] in fs then Found(fs[[]]) else Failed(NotFound)
    else
      match Canonicalize(fs, Parent(names))
      case Failed(error) => Failed(error)
      case Found(directory) =>
        if directory !in fs || fs[directory] != Directory then Failed(NotADirectory)
        else if directory + [names[|names| - 1]] !in fs then Failed(NotFound)
        else Found(fs[directory + [names[|names| - 1]]])
  }

  datatype LinkPolicy = Reject | FollowLinks

  /** `path_component_is_directory`. */
  function IsDirectory(fs: FileSystem, names: Names, node: Node, policy: LinkPolicy): Lookup<bool> {
    if node == Directory then Found(true)
    else if policy == FollowLinks && node.Link? then
      match Canonicalize(fs, names)
      case Failed(error) => Failed(error)
      case Found(target) => Found(target in fs && fs[target] == Directory)
    else Found(false)
  }

  /** The check of the first `n` names: whether the scan stops with an error. */
  function Refuses(fs: FileSystem, names: Names, n: nat, policy: LinkPolicy): Option<PathError>
    requires n <= |names|
  {
    match SymlinkMetadata(fs, names[..n])
    case Failed(error) => if error == NotFound then None else Some(error)
    case Found(node) =>
      if policy == Reject && node.Link? then Some(UnsafeLink)
      else if n < |names| then
        match IsDirectory(fs, names[..n], node, policy)
        case Failed(error) => Some(error)
        case Found(directory) => if directory then None else Some(NotADirectory)
      else None
  }

  predicate Missing(fs: FileSystem, names: Names, n: nat)
    requires n <= |names|
  {
    SymlinkMetadata(fs, names[..n]) == Failed(NotFound)
  }

  /** How many names exist, counted from the root, when nothing on the way is refused. */
  ghost predicate Existing(fs: FileSystem, names: Names, k: nat, policy: LinkPolicy) {
    && k <= |names|
    && (forall n :: 0 <= n <= k ==> !Missing(fs, names, n) && Refuses(fs, names, n, policy).None?)
    && (k < |names| ==> Missing(fs, names, k + 1))
  }

  datatype ResolvedPath = ResolvedPath(lexical: Names, resolved: Names)

  /** The longest existing beginning, canonicalized, with the missing names behind it. */
  ghost predicate Resolves(fs: FileSystem, lexical: Names, policy: LinkPolicy, r: ResolvedPath) {
    exists k: nat :: Existing(fs, lexical, k, policy) && r.lexical == lexical
      && Canonicalize(fs, lexical[..k]).Found? && r.resolved == Canonicalize(fs, lexical[..k]).value + lexical[k..]
  }

  /** `absolute_lexical`: relative paths are under the working directory. */
  function AbsoluteLexical(cwd: Names, path: Path): Names {
    if path.absolute then Normalized(path.parts) else Normalized(PartsOf(cwd) + path.parts)
  }

  lemma ExistingUnique(fs: FileSystem, names: Names, j: nat, k: nat, policy: LinkPolicy)
    requires Existing(fs, names, j, policy) && Existing(fs, names, k, policy)
    ensures j == k
  {
  }

  /** How many names exist, or why the path is refused, when the names before `next` are accepted. */
  function Scan(fs: FileSystem, lexical: Names, policy: LinkPolicy, next: nat): Lookup<nat>
    requires 0 < next <= |lexical| + 1
    decreases |lexical| + 1 - next
  {
    if next > |lexical| || Missing(fs, lexical, next) then Found(next - 1)
    else
      match Refuses(fs, lexical, next, policy)
      case Some(error) => Failed(error)
      case None => Scan(fs, lexical, policy, next + 1)
  }

  lemma {:induction false} ScanMeans(fs: FileSystem, lexical: Names, policy: LinkPolicy, next: nat)
    requires 0 < next <= |lexical| + 1
    requires forall n :: 0 <= n < next ==> !Missing(fs, lexical, n) && Refuses(fs, lexical, n, policy).None?
    ensures var r := Scan(fs, lexical, policy, next);
      && (r.Found? ==> Existing(fs, lexical, r.value, policy))
      && (r.Failed? ==> forall k: nat :: !Existing(fs, lexical, k, policy))
    decreases |lexical| + 1 - next
  {
    if next <= |lexical| && !Missing(fs, lexical, next) {
      if Refuses(fs, lexical, next, policy).Some? {
        RefusedNowhere(fs, lexical, next, policy);
      } else {
        ScanMeans(fs, lexical, policy, next + 1);
      }
    }
  }

  /** The loop over the components, which begins at the root. */
  method ScanExisting(fs: FileSystem, lexical: Names, policy: LinkPolicy) returns (r: Lookup<nat>)
    requires HasRoot(fs)
    ensures r == Scan(fs, lexical, policy, 1)
    ensures r.Found? ==> Existing(fs, lexical, r.value, policy)
    ensures r.Failed? ==> forall k: nat :: !Existing(fs, lexical, k, policy)
  {
    RootExists(fs, lexical, policy);
    ScanMeans(fs, lexical, policy, 1);
    var next := 0;
    while next <= |lexical|
      invariant 0 <= next <= |lexical| + 1
      invariant next > 0 ==> Scan(fs, lexical, policy, next) == Scan(fs, lexical, policy, 1)
    {
      if Missing(fs, lexical, next) {
        break;
      }
      var refused := Refuses(fs, lexical, next, policy);
      if refused.Some? {
        return Failed(refused.value);
      }
      next := next + 1;
    }
    r := Found(next - 1);
  }

  lemma RefusedNowhere(fs: FileSystem, lexical: Names, next: nat, policy: LinkPolicy)
    requires next <= |lexical| && Refuses(fs, lexical, next, policy).Some? && !Missing(fs, lexical, next)
    requires forall n :: 0 <= n < next ==> !Missing(fs, lexical, n)
    ensures forall k: nat :: !Existing(fs, lexical, k, policy)
  {
    forall k: nat ensures !Existing(fs, lexical, k, policy) {
      if k < next {
        assert !Missing(fs, lexical, k + 1);
      }
    }
  }

  /** The longest existing beginning canonicalized and the missing names behind it, or why there is none. */
  function Resolution(fs: FileSystem, cwd: Names, path: Path, policy: LinkPolicy): Lookup<ResolvedPath> {
    var lexical := AbsoluteLexical(cwd, path);
    match Scan(fs, lexical, policy, 1)
    case Failed(error) => Failed(error)
    case Found(k) =>
      if k > |lexical| then Failed(NotFound)
      else
        match Canonicalize(fs, lexical[..k])
        case Failed(error) => Failed(error)
        case Found(ancestor) => Found(ResolvedPath(lexical, ancestor + lexical[k..]))
  }

  lemma ResolutionMeans(fs: FileSystem, cwd: Names, path: Path, policy: LinkPolicy, r: ResolvedPath)
    requires HasRoot(fs)
    ensures Resolution(fs, cwd, path, policy) == Found(r) <==> Resolves(fs, AbsoluteLexical(cwd, path), policy, r)
  {
    var lexical := AbsoluteLexical(cwd, path);
    RootExists(fs, lexical, policy);
    ScanMeans(fs, lexical, policy, 1);
    if Resolves(fs, lexical, policy, r) {
      var k: nat :| Existing(fs, lexical, k, policy) && r.lexical == lexical
        && Canonicalize(fs, lexical[..k]).Found? && r.resolved == Canonicalize(fs, lexical[..k]).value + lexical[k..];
      ExistingUnique(fs, lexical, k, Scan(fs, lexical, policy, 1).value, policy);
    }
  }

  /** `resolve_path_with_existing_ancestor`. */
  method ResolvePathWithExistingAncestor(fs: FileSystem, cwd: Names, path: Path, policy: LinkPolicy)
    returns (r: Lookup<ResolvedPath>)
    requires HasRoot(fs)
    ensures r == Resolution(fs, cwd, path, policy)
    ensures forall other :: Resolves(fs, AbsoluteLexical(cwd, path), policy, other) <==> r == Found(other)
  {
    forall other
      ensures Resolves(fs, AbsoluteLexical(cwd, path), policy, other) <==>
        Resolution(fs, cwd, path, policy) == Found(other)
    {
      ResolutionMeans(fs, cwd, path, policy, other);
    }
    var lexical := AbsoluteLexical(cwd, path);
    var existing := ScanExisting(fs, lexical, policy);
    if existing.Failed? {
      return Failed(existing.error);
    }
    match Canonicalize(fs, lexical[..existing.value])
    case Failed(error) =>
      r := Failed(error);
    case Found(ancestor) =>
      // normalizing the canonical ancestor and the missing names changes nothing
      NormalizedPlain(ancestor + lexical[existing.value..]);
      r := Found(ResolvedPath(lexical, Normalized(PartsOf(ancestor + lexical[existing.value..]))));
  }

  lemma RootExists(fs: FileSystem, names: Names, policy: LinkPolicy)
    requires HasRoot(fs)
    ensures !Missing(fs, names, 0) && Refuses(fs, names, 0, policy).None?
  {
    assert names[..0] == [];
  }

  // ----- what resolution means -----

  /** Names that lead through plain directories to an entry that is no link. */
  ghost predicate Reached(fs: FileSystem, base: Names, names: Names) {
    && base + names in fs && !fs[base + names].Link?
    && forall n :: 0 <= n < |names| ==> base + names[..n] in fs && fs[base + names[..n]] == Directory
  }

  /** Following such names stays where the names say. */
  lemma {:induction false} FollowReached(fs: FileSystem, base: Names, names: Names, links: nat)
    requires Reached(fs, base, names)
    ensures Follow(fs, base, PartsOf(names), links) == Found(base + names)
    decreases |names|
  {
    if names == [] {
      assert PartsOf(names) == [] && base + names == base;
    } else {
      assert base + names[..0] == base;
      var next, rest := base + [names[0]], names[1..];
      assert PartsOf(names)[1..] == PartsOf(rest);
      assert next + rest == base + names;
      forall n | 0 <= n < |rest| ensures next + rest[..n] in fs && fs[next + rest[..n]] == Directory {
        assert next + rest[..n] == base + names[..n + 1];
      }
      assert next == if rest == [] then base + names else next + rest[..0];
      FollowReached(fs, next, rest, links);
    }
  }

  /** Where every step of a path meets a plain directory, the operating system ends up at its normalized form. */
  lemma {:induction false} FollowNormalizes(fs: FileSystem, parts: seq<Part>, k: nat, links: nat)
    requires k <= |parts| && forall n :: 0 <= n <= |parts| ==>
      Normalized(parts[..n]) in fs && fs[Normalized(parts[..n])] == Directory
    ensures Follow(fs, Normalized(parts[..k]), parts[k..], links) == Found(Normalized(parts))
    decreases |parts| - k
  {
    if k == |parts| {
      assert parts[..k] == parts;
    } else {
      FollowNormalizes(fs, parts, k + 1, links);
      assert parts[..k + 1][..k] == parts[..k] && parts[k..][1..] == parts[k + 1..];
      assert Normalized(parts[..k + 1]) == Walked(Normalized(parts[..k]), parts[k]);
    }
  }

  /** Every entry but the root is in a directory. */
  ghost predicate Tree(fs: FileSystem) {
    HasRoot(fs) && forall p :: p in fs && p != [] ==> Parent(p) in fs && fs[Parent(p)] == Directory
  }

  lemma {:induction false} TreeAbove(fs: FileSystem, names: Names, n: nat)
    requires Tree(fs) && names in fs && n <= |names|
    ensures names[..n] in fs && (n < |names| ==> fs[names[..n]] == Directory)
    decreases |names|
  {
    if n == |names| {
      assert names[..n] == names;
    } else {
      assert names != [] && Parent(names) in fs;
      TreeAbove(fs, Parent(names), n);
      assert Parent(names)[..n] == names[..n];
    }
  }

  lemma ReachedInTree(fs: FileSystem, names: Names)
    requires Tree(fs) && names in fs && !fs[names].Link?
    ensures Reached(fs, [], names)
  {
    assert [] + names == names;
    forall n | 0 <= n < |names| ensures [] + names[..n] in fs && fs[[] + names[..n]] == Directory {
      TreeAbove(fs, names, n);
      assert [] + names[..n] == names[..n];
    }
  }

  lemma MetadataInTree(fs: FileSystem, names: Names)
    requires Tree(fs) && (names == [] || (Parent(names) in fs && fs[Parent(names)] == Directory))
    ensures SymlinkMetadata(fs, names) == if names in fs then Found(fs[names]) else Failed(NotFound)
  {
    if names != [] {
      ReachedInTree(fs, Parent(names));
      FollowReached(fs, [], Parent(names), MAX_LINKS);
      assert [] + Parent(names) == Parent(names);
      assert names == Parent(names) + [names[|names| - 1]];
    }
  }

  /** Under the rejecting policy the names that exist are where they seem to be. */
  lemma {:induction false} RejectedInTree(fs: FileSystem, lexical: Names, k: nat, n: nat)
    requires Tree(fs) && Existing(fs, lexical, k, Reject) && n <= k
    ensures lexical[..n] in fs && !fs[lexical[..n]].Link?
    ensures n < |lexical| ==> fs[lexical[..n]] == Directory
    decreases n
  {
    var names := lexical[..n];
    if n > 0 {
      RejectedInTree(fs, lexical, k, n - 1);
      assert Parent(names) == lexical[..n - 1];
    }
    MetadataInTree(fs, names);
    assert !Missing(fs, lexical, n) && Refuses(fs, lexical, n, Reject).None?;
  }

  lemma NothingBehind(fs: FileSystem, lexical: Names, k: nat, n: nat)
    requires Tree(fs) && Existing(fs, lexical, k, Reject) && k < n <= |lexical|
    ensures lexical[..n] !in fs
  {
    RejectedInTree(fs, lexical, k, k);
    assert Parent(lexical[..k + 1]) == lexical[..k];
    MetadataInTree(fs, lexical[..k + 1]);
    assert Missing(fs, lexical, k + 1);
    assert lexical[..n][..k + 1] == lexical[..k + 1];
    if lexical[..n] in fs {
      TreeAbove(fs, lexical[..n], k + 1);
    }
  }

  /** No name on the way is a link, and no name before the last is a file. */
  ghost predicate LinkFree(fs: FileSystem, lexical: Names) {
    forall n :: 0 <= n <= |lexical| && lexical[..n] in fs ==>
      !fs[lexical[..n]].Link? && (n < |lexical| ==> fs[lexical[..n]] == Directory)
  }

  lemma RejectedIsLinkFree(fs: FileSystem, lexical: Names, k: nat)
    requires Tree(fs) && Existing(fs, lexical, k, Reject)
    ensures LinkFree(fs, lexical)
  {
    forall n | 0 <= n <= |lexical| && lexical[..n] in fs
      ensures !fs[lexical[..n]].Link? && (n < |lexical| ==> fs[lexical[..n]] == Directory)
    {
      if n <= k {
        RejectedInTree(fs, lexical, k, n);
      } else {
        NothingBehind(fs, lexical, k, n);
      }
    }
  }

  lemma CanonicalInTree(fs: FileSystem, names: Names)
    requires Tree(fs) && names in fs && !fs[names].Link?
    ensures Canonicalize(fs, names) == Found(names)
  {
    ReachedInTree(fs, names);
    FollowReached(fs, [], names, MAX_LINKS);
    assert [] + names == names;
  }

  /**
   * A path resolved while rejecting links is the lexical path itself: its existing
   * proper ancestors are directories and nothing on the way is a link.
   */
  lemma RejectedLinksResolveLexically(fs: FileSystem, lexical: Names, r: ResolvedPath)
    requires Tree(fs) && Resolves(fs, lexical, Reject, r)
    ensures r.resolved == lexical == r.lexical && LinkFree(fs, lexical)
  {
    var k: nat :| Existing(fs, lexical, k, Reject) && r.lexical == lexical
      && Canonicalize(fs, lexical[..k]).Found? && r.resolved == Canonicalize(fs, lexical[..k]).value + lexical[k..];
    RejectedInTree(fs, lexical, k, k);
    CanonicalInTree(fs, lexical[..k]);
    RejectedIsLinkFree(fs, lexical, k);
    assert lexical[..k] + lexical[k..] == lexical;
  }

  /** The rejecting resolution succeeds exactly on such paths. */
  lemma RejectSucceedsWhen(fs: FileSystem, lexical: Names)
    requires Tree(fs)
    ensures Resolves(fs, lexical, Reject, ResolvedPath(lexical, lexical)) <==> LinkFree(fs, lexical)
  {
    if Resolves(fs, lexical, Reject, ResolvedPath(lexical, lexical)) {
      RejectedLinksResolveLexically(fs, lexical, ResolvedPath(lexical, lexical));
    }
    if LinkFree(fs, lexical) {
      var k := LongestInTree(fs, lexical, |lexical|);
      PlainExisting(fs, lexical, k);
      CanonicalInTree(fs, lexical[..k]);
      assert lexical[..k] + lexical[k..] == lexical;
    }
  }

  lemma {:induction false} LongestInTree(fs: FileSystem, lexical: Names, n: nat) returns (k: nat)
    requires Tree(fs) && n <= |lexical| && (n < |lexical| ==> lexical[..n + 1] !in fs)
    ensures k <= n && lexical[..k] in fs && (k < |lexical| ==> lexical[..k + 1] !in fs)
  {
    if lexical[..n] in fs {
      k := n;
    } else {
      assert n > 0 by { assert lexical[..0] == []; }
      k := LongestInTree(fs, lexical, n - 1);
    }
  }

  lemma PlainExisting(fs: FileSystem, lexical: Names, k: nat)
    requires Tree(fs) && k <= |lexical| && lexical[..k] in fs && (k < |lexical| ==> lexical[..k + 1] !in fs)
    requires LinkFree(fs, lexical)
    ensures Existing(fs, lexical, k, Reject)
  {
    forall n | 0 <= n <= k ensures !Missing(fs, lexical, n) && Refuses(fs, lexical, n, Reject).None? {
      TreeAbove(fs, lexical[..k], n);
      assert lexical[..k][..n] == lexical[..n];
      if n > 0 {
        TreeAbove(fs, lexical[..k], n - 1);
        assert lexical[..k][..n - 1] == lexical[..n - 1] == Parent(lexical[..n]);
      }
      MetadataInTree(fs, lexical[..n]);
    }
    if k < |lexical| {
      assert Parent(lexical[..k + 1]) == lexical[..k];
      MetadataInTree(fs, lexical[..k + 1]);
    }
  }

  // ----- where a write lands -----

  /** `fs` with the directories on the way to `path` that it lacks. */
  ghost predicate CreatesOnly(fs: FileSystem, after: FileSystem, path: Names) {
    && (forall p :: p in fs ==> p in after && after[p] == fs[p])
    && (forall n :: 0 <= n <= |path| && path[..n] !in fs ==> path[..n] in after && after[path[..n]] == Directory)
  }

  /** Where one step of a lookup that succeeds goes on. */
  datatype Continuation = Continuation(base: Names, parts: seq<Part>, links: nat)

  function Continue(fs: FileSystem, base: Names, parts: seq<Part>, links: nat): Continuation
    requires parts != [] && base in fs && fs[base] == Directory && Follow(fs, base, parts, links).Found?
  {
    match parts[0]
    case CurDir => Continuation(base, parts[1..], links)
    case ParentDir => Continuation(Parent(base), parts[1..], links)
    case Normal(name) =>
      match fs[base + [name]]
      case Link(target) => Continuation(if target.absolute then [] else base, target.parts + parts[1..], links - 1)
      case _ => Continuation(base + [name], parts[1..], links)
  }

  lemma FollowsInDirectory(fs: FileSystem, base: Names, parts: seq<Part>, links: nat)
    requires parts != [] && Follow(fs, base, parts, links).Found?
    ensures base in fs && fs[base] == Directory
  {
  }

  lemma ContinueFollows(fs: FileSystem, base: Names, parts: seq<Part>, links: nat)
    requires parts != [] && Follow(fs, base, parts, links).Found? && base in fs && fs[base] == Directory
    ensures var c := Continue(fs, base, parts, links);
      Follow(fs, base, parts, links) == Follow(fs, c.base, c.parts, c.links)
  {
  }

  lemma ContinueDecreases(fs: FileSystem, base: Names, parts: seq<Part>, links: nat)
    requires parts != [] && Follow(fs, base, parts, links).Found? && base in fs && fs[base] == Directory
    ensures var c := Continue(fs, base, parts, links); c.links < links || (c.links == links && |c.parts| < |parts|)
  {
  }

  /** A larger tree and further components take the same step. */
  lemma ContinueExtends(fs: FileSystem, after: FileSystem, base: Names, parts: seq<Part>, links: nat, more: seq<Part>)
    requires forall p :: p in fs ==> p in after && after[p] == fs[p]
    requires parts != [] && Follow(fs, base, parts, links).Found? && base in fs && fs[base] == Directory
    ensures var c := Continue(fs, base, parts, links);
      Follow(after, base, parts + more, links) == Follow(after, c.base, c.parts + more, c.links)
  {
    var all := parts + more;
    assert all[0] == parts[0] && all[1..] == parts[1..] + more;
    if parts[0].Normal? && fs[base + [parts[0].name]].Link? {
      var target := fs[base + [parts[0].name]].target;
      assert target.parts + all[1..] == (target.parts + parts[1..]) + more;
    }
  }

  lemma {:induction false} FollowExtends(fs: FileSystem, after: FileSystem, base: Names, parts: seq<Part>, links: nat,
      target: Names, more: Names)
    requires forall p :: p in fs ==> p in after && after[p] == fs[p]
    requires Follow(fs, base, parts, links) == Found(target) && Reached(after, target, more)
    ensures Follow(after, base, parts + PartsOf(more), links) == Found(target + more)
    decreases links, |parts|
  {
    if parts == [] {
      assert parts + PartsOf(more) == PartsOf(more);
      FollowReached(after, base, more, links);
    } else {
      FollowsInDirectory(fs, base, parts, links);
      ContinueFollows(fs, base, parts, links);
      ContinueDecreases(fs, base, parts, links);
      ContinueExtends(fs, after, base, parts, links, PartsOf(more));
      var c := Continue(fs, base, parts, links);
      FollowExtends(fs, after, c.base, c.parts, c.links, target, more);
    }
  }

  /** A lookup ends at an entry that is no link. */
  lemma {:induction false} FollowEnds(fs: FileSystem, base: Names, parts: seq<Part>, links: nat)
    requires Tree(fs) && base in fs && !fs[base].Link? && Follow(fs, base, parts, links).Found?
    ensures var end := Follow(fs, base, parts, links).value; end in fs && !fs[end].Link?
    decreases links, |parts|
  {
    if parts != [] {
      FollowsInDirectory(fs, base, parts, links);
      ContinueFollows(fs, base, parts, links);
      ContinueDecreases(fs, base, parts, links);
      var c := Continue(fs, base, parts, links);
      assert c.base in fs && !fs[c.base].Link?;
      FollowEnds(fs, c.base, c.parts, c.links);
    }
  }

  /** In the directory that the existing names lead to, nothing has the name that is missing. */
  lemma MissingBehind(fs: FileSystem, lexical: Names, k: nat, target: Names)
    requires k < |lexical| && Canonicalize(fs, lexical[..k]) == Found(target) && Missing(fs, lexical, k + 1)
    ensures target in fs && fs[target] == Directory && target + [lexical[k]] !in fs
  {
    var names := lexical[..k + 1];
    assert Parent(names) == lexical[..k] && names[|names| - 1] == lexical[k];
  }

  /** Behind an entry that is no link there is nothing where a name is missing. */
  lemma LinkFreeBehind(fs: FileSystem, target: Names, more: Names)
    requires Tree(fs) && target in fs && !fs[target].Link?
    requires more != [] ==> fs[target] == Directory && target + [more[0]] !in fs
    ensures LinkFree(fs, target + more)
  {
    var path := target + more;
    forall n | 0 <= n <= |path| && path[..n] in fs
      ensures !fs[path[..n]].Link? && (n < |path| ==> fs[path[..n]] == Directory)
    {
      if n <= |target| {
        TreeAbove(fs, target, n);
        assert path[..n] == target[..n];
        assert target[..|target|] == target;
      } else {
        assert path[..n][..|target| + 1] == target + [more[0]];
        TreeAbove(fs, path[..n], |target| + 1);
      }
    }
  }

  /** Under either policy the resolved path has no link on it, and no file before its last name. */
  lemma ResolvedIsLinkFree(fs: FileSystem, lexical: Names, policy: LinkPolicy, r: ResolvedPath)
    requires Tree(fs) && Resolves(fs, lexical, policy, r)
    ensures LinkFree(fs, r.resolved)
  {
    var k: nat :| Existing(fs, lexical, k, policy) && r.lexical == lexical
      && Canonicalize(fs, lexical[..k]).Found? && r.resolved == Canonicalize(fs, lexical[..k]).value + lexical[k..];
    var target := Canonicalize(fs, lexical[..k]).value;
    FollowEnds(fs, [], PartsOf(lexical[..k]), MAX_LINKS);
    if k < |lexical| {
      MissingBehind(fs, lexical, k, target);
    }
    LinkFreeBehind(fs, target, lexical[k..]);
  }

  /**
   * Under either policy, once the missing directories are made at the resolved path,
   * the operating system takes the lexical path exactly there.
   */
  lemma WritesLandInResolved(fs: FileSystem, after: FileSystem, lexical: Names, policy: LinkPolicy, r: ResolvedPath)
    requires Tree(fs) && Resolves(fs, lexical, policy, r) && CreatesOnly(fs, after, r.resolved)
    ensures Canonicalize(after, lexical) == Found(r.resolved)
  {
    var k: nat :| Existing(fs, lexical, k, policy) && r.lexical == lexical
      && Canonicalize(fs, lexical[..k]).Found? && r.resolved == Canonicalize(fs, lexical[..k]).value + lexical[k..];
    var target, more := Canonicalize(fs, lexical[..k]).value, lexical[k..];
    ResolvedIsLinkFree(fs, lexical, policy, r);
    CreatedReached(fs, after, target, more);
    FollowExtends(fs, after, [], PartsOf(lexical[..k]), MAX_LINKS, target, more);
    assert PartsOf(lexical) == PartsOf(lexical[..k]) + PartsOf(more);
  }

  lemma CreatedReached(fs: FileSystem, after: FileSystem, target: Names, more: Names)
    requires CreatesOnly(fs, after, target + more) && LinkFree(fs, target + more)
    ensures Reached(after, target, more)
  {
    var path := target + more;
    forall n | 0 <= n <= |more|
      ensures target + more[..n] in after && !after[target + more[..n]].Link?
      ensures n < |more| ==> after[target + more[..n]] == Directory
    {
      assert path[..|target| + n] == target + more[..n];
    }
    assert more[..|more|] == more;
  }

  // ----- roots that must stay apart -----

  /** `path_is_within_or_equal`. */
  predicate IsWithinOrEqual(path: Names, parent: Names) {
    parent <= path
  }

  /** `paths_overlap`. */
  predicate PathsOverlap(left: Names, right: Names) {
    IsWithinOrEqual(left, right) || IsWithinOrEqual(right, left)
  }

  /** Two roots overlap exactly when some path is under both. */
  lemma OverlapMeansShared(left: Names, right: Names)
    ensures PathsOverlap(left, right) <==>
      exists path: Names :: IsWithinOrEqual(path, left) && IsWithinOrEqual(path, right)
  {
    if PathsOverlap(left, right) {
      var path := if IsWithinOrEqual(left, right) then left else right;
      assert IsWithinOrEqual(path, left) && IsWithinOrEqual(path, right);
    }
    if path: Names :| IsWithinOrEqual(path, left) && IsWithinOrEqual(path, right) {
      if |left| <= |right| {
        assert right[..|left|] == path[..|left|] == left;
      } else {
        assert left[..|right|] == path[..|right|] == right;
      }
    }
  }

  datatype ProjectPaths = ProjectPaths(
    root: Path, inputDir: Path, outputDir: Path, updateOutputDir: Path, cacheDir: Path, reportingDir: Path,
    vectorDbUri: Path)

  datatype Violation =
    | Unresolved(error: PathError)
    | ProjectRoot
    | Overlaps(place: string)
    | ContainsOutput
    | FilesystemRoot
    | HomeDirectory

  /** The resolved roots, each by the policy its validator uses. */
  datatype Roots = Roots(
    root: Names, input: Names, output: Names, update: Names, cache: Names, reporting: Names, vector: Names,
    home: Option<Names>)

  /** The roots as they are looked up. */
  datatype Located = Located(
    root: Lookup<Names>, input: Lookup<Names>, output: Lookup<Names>, update: Lookup<Names>,
    cache: Lookup<Names>, reporting: Lookup<Names>, vector: Lookup<Names>, home: Option<Lookup<Names>>)

  function ResolvedNames(fs: FileSystem, cwd: Names, path: Path, policy: LinkPolicy): Lookup<Names> {
    match Resolution(fs, cwd, path, policy)
    case Found(r) => Found(r.resolved)
    case Failed(error) => Failed(error)
  }

  function Locate(fs: FileSystem, cwd: Names, paths: ProjectPaths, home: Option<Path>): Located {
    Located(
      ResolvedNames(fs, cwd, paths.root, FollowLinks), ResolvedNames(fs, cwd, paths.inputDir, FollowLinks),
      ResolvedNames(fs, cwd, paths.outputDir, Reject), ResolvedNames(fs, cwd, paths.updateOutputDir, Reject),
      ResolvedNames(fs, cwd, paths.cacheDir, FollowLinks), ResolvedNames(fs, cwd, paths.reportingDir, FollowLinks),
      ResolvedNames(fs, cwd, paths.vectorDbUri, Reject),
      if home.Some? then Some(ResolvedNames(fs, cwd, home.value, FollowLinks)) else None)
  }

  predicate CoversOrEquals(write: Names, place: Names) {
    write == place || IsWithinOrEqual(place, write)
  }

  function FirstOverlap(write: Names, places: seq<(Names, string)>): Option<string> {
    if places == [] then None
    else if PathsOverlap(write, places[0].0) then Some(places[0].1)
    else FirstOverlap(write, places[1..])
  }

  /** The error of the first root that cannot be resolved, in the order of a validator's lookups. */
  function FirstFailure(lookups: seq<Lookup<Names>>): (error: Option<PathError>)
    ensures error.None? <==> forall lookup :: lookup in lookups ==> lookup.Found?
  {
    if lookups == [] then None
    else
      assert lookups[0] in lookups;
      if lookups[0].Failed? then Some(lookups[0].error)
      else FirstFailure(lookups[1..])
  }

  /** The home directory is resolved when everything else is in order. */
  function CheckHome(write: Names, home: Option<Lookup<Names>>): Option<Violation> {
    if home.None? then None
    else if home.value.Failed? then Some(Unresolved(home.value.error))
    else if CoversOrEquals(write, home.value.value) then Some(HomeDirectory)
    else None
  }

  function DataPlaces(l: Located): seq<(Names, string)>
    requires l.input.Found? && l.cache.Found? && l.reporting.Found?
  {
    [(l.input.value, "input"), (l.cache.value, "cache"), (l.reporting.value, "logs")]
  }

  /** Everything that an update output must not overlap. */
  function UpdatePlaces(l: Located): seq<(Names, string)>
    requires l.input.Found? && l.output.Found? && l.cache.Found? && l.reporting.Found? && l.vector.Found?
  {
    [(l.input.value, "input"), (l.output.value, "output"), (l.cache.value, "cache"), (l.reporting.value, "logs"),
     (l.vector.value, "vector DB")]
  }

  /** `validate_output_path_safety_with_home`. */
  function ValidateOutput(l: Located): Option<Violation> {
    var lookups := [l.output, l.root, l.input, l.cache, l.reporting];
    var failure := FirstFailure(lookups);
    if failure.Some? then Some(Unresolved(failure.value))
    else
      assert forall lookup :: lookup in lookups ==> lookup.Found?;
      var overlap := FirstOverlap(l.output.value, DataPlaces(l));
      if CoversOrEquals(l.output.value, l.root.value) then Some(ProjectRoot)
      else if overlap.Some? then Some(Overlaps(overlap.value))
      else if l.output.value == [] then Some(FilesystemRoot)
      else CheckHome(l.output.value, l.home)
  }

  /** `validate_update_output_path_safety_with_home`. */
  function ValidateUpdate(l: Located): Option<Violation> {
    var lookups := [l.update, l.root, l.input, l.output, l.cache, l.reporting, l.vector];
    var failure := FirstFailure(lookups);
    if failure.Some? then Some(Unresolved(failure.value))
    else
      assert forall lookup :: lookup in lookups ==> lookup.Found?;
      var overlap := FirstOverlap(l.update.value, UpdatePlaces(l));
      if CoversOrEquals(l.update.value, l.root.value) then Some(ProjectRoot)
      else if overlap.Some? then Some(Overlaps(overlap.value))
      else if l.update.value == [] then Some(FilesystemRoot)
      else CheckHome(l.update.value, l.home)
  }

  /** `validate_vector_path_safety_with_home`. */
  function ValidateVector(l: Located): Option<Violation> {
    var lookups := [l.vector, l.root, l.output, l.input, l.cache, l.reporting];
    var failure := FirstFailure(lookups);
    if failure.Some? then Some(Unresolved(failure.value))
    else
      assert forall lookup :: lookup in lookups ==> lookup.Found?;
      var overlap := FirstOverlap(l.vector.value, DataPlaces(l));
      if l.vector.value == [] then Some(FilesystemRoot)
      else if CoversOrEquals(l.vector.value, l.root.value) then Some(ProjectRoot)
      else if CoversOrEquals(l.vector.value, l.output.value) then Some(ContainsOutput)
      else if overlap.Some? then Some(Overlaps(overlap.value))
      else CheckHome(l.vector.value, l.home)
  }

  ghost predicate NothingUnderBoth(left: Names, right: Names) {
    forall path: Names :: !(IsWithinOrEqual(path, left) && IsWithinOrEqual(path, right))
  }

  lemma {:induction false} OverlapFound(write: Names, places: seq<(Names, string)>)
    ensures FirstOverlap(write, places).None? <==>
      forall k :: 0 <= k < |places| ==> NothingUnderBoth(write, places[k].0)
  {
    if places != [] {
      OverlapFound(write, places[1..]);
      OverlapMeansShared(write, places[0].0);
      forall k | 0 <= k < |places| ensures places[k] == if k == 0 then places[0] else places[1..][k - 1] {}
      if forall k :: 0 <= k < |places| ==> NothingUnderBoth(write, places[k].0) {
        forall k | 0 <= k < |places[1..]| ensures NothingUnderBoth(write, places[1..][k].0) {
          assert places[1..][k] == places[k + 1];
        }
      }
    }
  }

  /** What a write root must not hold. */
  ghost predicate HoldsNothingElse(write: Names, r: Roots) {
    && write != [] && !IsWithinOrEqual(r.root, write)
    && (r.home.Some? ==> !IsWithinOrEqual(r.home.value, write))
  }

  ghost predicate ApartFromData(write: Names, r: Roots) {
    NothingUnderBoth(write, r.input) && NothingUnderBoth(write, r.cache) && NothingUnderBoth(write, r.reporting)
  }

  lemma DataOverlap(write: Names, l: Located)
    requires l.input.Found? && l.cache.Found? && l.reporting.Found?
    ensures FirstOverlap(write, DataPlaces(l)).None? <==>
      NothingUnderBoth(write, l.input.value) && NothingUnderBoth(write, l.cache.value)
      && NothingUnderBoth(write, l.reporting.value)
  {
    var places := DataPlaces(l);
    OverlapFound(write, places);
    assert places[0].0 == l.input.value && places[1].0 == l.cache.value && places[2].0 == l.reporting.value;
  }

  lemma UpdateOverlap(write: Names, l: Located)
    requires l.input.Found? && l.output.Found? && l.cache.Found? && l.reporting.Found? && l.vector.Found?
    ensures FirstOverlap(write, UpdatePlaces(l)).None? <==>
      && NothingUnderBoth(write, l.input.value) && NothingUnderBoth(write, l.output.value)
      && NothingUnderBoth(write, l.cache.value) && NothingUnderBoth(write, l.reporting.value)
      && NothingUnderBoth(write, l.vector.value)
  {
    var places := UpdatePlaces(l);
    OverlapFound(write, places);
    assert places[0].0 == l.input.value && places[1].0 == l.output.value && places[2].0 == l.cache.value;
    assert places[3].0 == l.reporting.value && places[4].0 == l.vector.value;
  }

  /** A write root does not hold the home directory, which can be resolved if there is one. */
  ghost predicate ClearOfHome(write: Names, home: Option<Lookup<Names>>) {
    home.Some? ==> home.value.Found? && !IsWithinOrEqual(home.value.value, write)
  }

  /** The output validator accepts exactly an output root apart from the data, the project, the home and everything. */
  lemma OutputAccepted(l: Located)
    ensures ValidateOutput(l).None? <==>
      && l.output.Found? && l.root.Found? && l.input.Found? && l.cache.Found? && l.reporting.Found?
      && var write := l.output.value;
         && write != [] && !IsWithinOrEqual(l.root.value, write) && ClearOfHome(write, l.home)
         && NothingUnderBoth(write, l.input.value) && NothingUnderBoth(write, l.cache.value)
         && NothingUnderBoth(write, l.reporting.value)
  {
    var lookups := [l.output, l.root, l.input, l.cache, l.reporting];
    if FirstFailure(lookups).None? {
      DataOverlap(l.output.value, l);
    }
  }

  /** The update validator accepts exactly an update root that is also apart from the output and the vector database. */
  lemma UpdateAccepted(l: Located)
    ensures ValidateUpdate(l).None? <==>
      && l.update.Found? && l.root.Found? && l.input.Found? && l.output.Found? && l.cache.Found? && l.reporting.Found?
      && l.vector.Found?
      && var write := l.update.value;
         && write != [] && !IsWithinOrEqual(l.root.value, write) && ClearOfHome(write, l.home)
         && NothingUnderBoth(write, l.input.value) && NothingUnderBoth(write, l.output.value)
         && NothingUnderBoth(write, l.cache.value) && NothingUnderBoth(write, l.reporting.value)
         && NothingUnderBoth(write, l.vector.value)
  {
    var lookups := [l.update, l.root, l.input, l.output, l.cache, l.reporting, l.vector];
    if FirstFailure(lookups).None? {
      UpdateOverlap(l.update.value, l);
    }
  }

  /** The vector validator accepts exactly a vector root apart from the data that does not hold the output. */
  lemma VectorAccepted(l: Located)
    ensures ValidateVector(l).None? <==>
      && l.vector.Found? && l.root.Found? && l.output.Found? && l.input.Found? && l.cache.Found? && l.reporting.Found?
      && var write := l.vector.value;
         && write != [] && !IsWithinOrEqual(l.root.value, write) && ClearOfHome(write, l.home)
         && !IsWithinOrEqual(l.output.value, write)
         && NothingUnderBoth(write, l.input.value) && NothingUnderBoth(write, l.cache.value)
         && NothingUnderBoth(write, l.reporting.value)
  {
    var lookups := [l.vector, l.root, l.output, l.input, l.cache, l.reporting];
    if FirstFailure(lookups).None? {
      DataOverlap(l.vector.value, l);
    }
  }

  /**
   * No managed write root shares a path with what it must not touch, and none holds the project, the
   * home or everything.
   */
  ghost predicate Apart(r: Roots) {
    && ApartFromData(r.output, r) && ApartFromData(r.update, r) && ApartFromData(r.vector, r)
    && NothingUnderBoth(r.update, r.output) && NothingUnderBoth(r.update, r.vector)
    && !IsWithinOrEqual(r.output, r.vector)
    && HoldsNothingElse(r.output, r) && HoldsNothingElse(r.update, r) && HoldsNothingElse(r.vector, r)
  }

  /** Every root is found. */
  ghost predicate AllLocated(l: Located, r: Roots) {
    && l.root == Found(r.root) && l.input == Found(r.input) && l.output == Found(r.output) &&
      l.update == Found(r.update)
    && l.cache == Found(r.cache) && l.reporting == Found(r.reporting) && l.vector == Found(r.vector)
    && (r.home.None? ==> l.home.None?) && (r.home.Some? ==> l.home == Some(Found(r.home.value)))
  }

  predicate Accepted(l: Located) {
    ValidateOutput(l).None? && ValidateUpdate(l).None? && ValidateVector(l).None?
  }

  /** The three validators accept exactly the roots that can all be resolved and are apart. */
  lemma ValidatedRootsAreApart(l: Located)
    ensures Accepted(l) <==> exists r :: AllLocated(l, r) && Apart(r)
  {
    hide NothingUnderBoth, ValidateOutput, ValidateUpdate, ValidateVector;
    OutputAccepted(l);
    UpdateAccepted(l);
    VectorAccepted(l);
    if Accepted(l) {
      var home := if l.home.Some? then Some(l.home.value.value) else None;
      var r := Roots(l.root.value, l.input.value, l.output.value, l.update.value, l.cache.value, l.reporting.value,
                     l.vector.value, home);
      assert AllLocated(l, r) && Apart(r);
    }
  }

  // ----- the validators on a file system -----

  ghost predicate ResolvesTo(fs: FileSystem, cwd: Names, path: Path, policy: LinkPolicy, names: Names) {
    exists r :: Resolves(fs, AbsoluteLexical(cwd, path), policy, r) && r.resolved == names
  }

  lemma ResolvedNamesMean(fs: FileSystem, cwd: Names, path: Path, policy: LinkPolicy, names: Names)
    requires HasRoot(fs)
    ensures ResolvedNames(fs, cwd, path, policy) == Found(names) <==> ResolvesTo(fs, cwd, path, policy, names)
  {
    var resolution := Resolution(fs, cwd, path, policy);
    if resolution.Found? {
      ResolutionMeans(fs, cwd, path, policy, resolution.value);
    }
    if ResolvesTo(fs, cwd, path, policy, names) {
      var r :| Resolves(fs, AbsoluteLexical(cwd, path), policy, r) && r.resolved == names;
      ResolutionMeans(fs, cwd, path, policy, r);
    }
  }

  /** Every root of the project, resolved by the policy of its kind. */
  ghost predicate RootsOf(fs: FileSystem, cwd: Names, paths: ProjectPaths, home: Option<Path>, r: Roots) {
    && ResolvesTo(fs, cwd, paths.root, FollowLinks, r.root) && ResolvesTo(fs, cwd, paths.inputDir, FollowLinks, r.input)
    && ResolvesTo(fs, cwd, paths.outputDir, Reject, r.output)
    && ResolvesTo(fs, cwd, paths.updateOutputDir, Reject, r.update)
    && ResolvesTo(fs, cwd, paths.cacheDir, FollowLinks, r.cache)
    && ResolvesTo(fs, cwd, paths.reportingDir, FollowLinks, r.reporting)
    && ResolvesTo(fs, cwd, paths.vectorDbUri, Reject, r.vector)
    && (home.Some? <==> r.home.Some?) && (home.Some? ==> ResolvesTo(fs, cwd, home.value, FollowLinks, r.home.value))
  }

  lemma LocatedRoots(fs: FileSystem, cwd: Names, paths: ProjectPaths, home: Option<Path>, r: Roots)
    requires HasRoot(fs)
    ensures AllLocated(Locate(fs, cwd, paths, home), r) <==> RootsOf(fs, cwd, paths, home, r)
  {
    hide ResolvedNames, ResolvesTo;
    ResolvedNamesMean(fs, cwd, paths.root, FollowLinks, r.root);
    ResolvedNamesMean(fs, cwd, paths.inputDir, FollowLinks, r.input);
    ResolvedNamesMean(fs, cwd, paths.outputDir, Reject, r.output);
    ResolvedNamesMean(fs, cwd, paths.updateOutputDir, Reject, r.update);
    ResolvedNamesMean(fs, cwd, paths.cacheDir, FollowLinks, r.cache);
    ResolvedNamesMean(fs, cwd, paths.reportingDir, FollowLinks, r.reporting);
    ResolvedNamesMean(fs, cwd, paths.vectorDbUri, Reject, r.vector);
    if home.Some? && r.home.Some? {
      ResolvedNamesMean(fs, cwd, home.value, FollowLinks, r.home.value);
    }
  }

  /** On any file system, the three validators accept exactly the paths whose roots all resolve and are apart. */
  lemma AcceptedPathsAreApart(fs: FileSystem, cwd: Names, paths: ProjectPaths, home: Option<Path>)
    requires HasRoot(fs)
    ensures Accepted(Locate(fs, cwd, paths, home)) <==> exists r :: RootsOf(fs, cwd, paths, home, r) && Apart(r)
  {
    hide Accepted, Apart, RootsOf, AllLocated, Locate;
    var l := Locate(fs, cwd, paths, home);
    ValidatedRootsAreApart(l);
    forall r ensures AllLocated(l, r) <==> RootsOf(fs, cwd, paths, home, r) {
      LocatedRoots(fs, cwd, paths, home, r);
    }
    if r :| AllLocated(l, r) && Apart(r) {
      assert RootsOf(fs, cwd, paths, home, r);
    }
    if r :| RootsOf(fs, cwd, paths, home, r) && Apart(r) {
      assert AllLocated(l, r);
    }
  }
}
