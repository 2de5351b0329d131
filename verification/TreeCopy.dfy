/** Recursive copies between two file systems: a worklist of directories, each listed in whatever order
    the other side reports, and files copied chunk by chunk. */
module TreeCopy {
  import opened Wrappers
  import Text

  type Path = seq<string>

  datatype Node = Dir | File(data: Bytes)

  type Files = map<Path, Node>

  function Lookup(fs: Files, p: Path): Option<Node> {
    if p in fs then Some(fs[p]) else None
  }

  predicate IsDir(fs: Files, p: Path) {
    p in fs && fs[p].Dir?
  }

  function Parent(p: Path): Path
    requires p != []
  {
    p[..|p| - 1]
  }

  /** The root is a directory, and everything else lies in one. */
  ghost predicate WellFormed(fs: Files) {
    IsDir(fs, []) && forall p <- fs :: p != [] ==> IsDir(fs, Parent(p))
  }

  // ---------------------------------------------------------------------------
  // Operations on the destination
  // ---------------------------------------------------------------------------

  /** `create_dir_all`: the missing directories on the way down, unless a file is in the way. */
  function CreateDirAll(fs: Files, p: Path): Option<Files>
    decreases |p|
  {
    if p in fs then if fs[p].Dir? then Some(fs) else None
    else if p == [] then Some(fs[p := Dir])
    else
      match CreateDirAll(fs, Parent(p))
      case Some(g) => Some(g[p := Dir])
      case None => None
  }

  predicate Above(q: Path, p: Path) {
    q <= p
  }

  lemma AboveParent(q: Path, p: Path)
    requires p != []
    ensures Above(q, p) <==> Above(q, Parent(p)) || q == p
  {
    if |q| == |p| && q <= p {
      assert q == p;
    }
  }

  ghost predicate NoFileAbove(fs: Files, p: Path) {
    forall q :: Above(q, p) && q in fs ==> fs[q].Dir?
  }

  lemma {:induction false} DirsAbove(fs: Files, p: Path)
    requires WellFormed(fs) && IsDir(fs, p)
    ensures forall q :: Above(q, p) ==> IsDir(fs, q)
    decreases |p|
  {
    if p != [] {
      DirsAbove(fs, Parent(p));
      forall q | Above(q, p) ensures IsDir(fs, q) {
        AboveParent(q, p);
      }
    }
  }

  /** It succeeds unless a file is in the way, and then changes nothing but the path and its ancestors. */
  lemma {:induction false} CreateDirAllEffect(fs: Files, p: Path)
    requires WellFormed(fs)
    ensures CreateDirAll(fs, p).Some? <==> NoFileAbove(fs, p)
    ensures CreateDirAll(fs, p).Some? ==>
              forall q :: Lookup(CreateDirAll(fs, p).value, q) == if Above(q, p) then Some(Dir) else Lookup(fs, q)
    decreases |p|
  {
    if p in fs {
      assert Above(p, p);
      if fs[p].Dir? {
        DirsAbove(fs, p);
      }
    } else {
      CreateDirAllEffect(fs, Parent(p));
      forall q ensures Above(q, p) <==> Above(q, Parent(p)) || q == p {
        AboveParent(q, p);
      }
    }
  }

  /** `create` truncates; it needs a directory to hold the file. */
  function CreateFile(fs: Files, p: Path, data: Bytes): Option<Files> {
    if IsDir(fs, p) || p == [] || !IsDir(fs, Parent(p)) then None else Some(fs[p := File(data)])
  }

  function CreateDir(fs: Files, p: Path): Option<Files> {
    if p in fs || p == [] || !IsDir(fs, Parent(p)) then None else Some(fs[p := Dir])
  }

  /** `ensure_remote_dir`: a failed creation is forgiven when a directory is already there. */
  method EnsureDir(fs: Files, p: Path) returns (r: Option<Files>)
    ensures r.Some? <==> IsDir(fs, p) || CreateDir(fs, p).Some?
    ensures r.Some? ==> forall q :: Lookup(r.value, q) == if q == p then Some(Dir) else Lookup(fs, q)
  {
    r := CreateDir(fs, p);
    if r.None? && IsDir(fs, p) {
      r := Some(fs);
    }
  }

  const CHUNK: nat := 32768

  /** The copy loop of one file: `sizes` says how much each read returns, never nothing before the end. */
  method CopyChunks(data: Bytes, sizes: nat -> nat) returns (written: Bytes)
    ensures written == data
  {
    written := [];
    var turn := 0;
    while true
      invariant written <= data
      decreases |data| - |written|
    {
      var rest := data[|written|..];
      var most := if |rest| < CHUNK then |rest| else CHUNK;
      var size := if sizes(turn) < 1 then 1 else sizes(turn);
      var chunk := rest[..if size < most then size else most];
      turn := turn + 1;
      if chunk == [] {
        break;
      }
      written := written + chunk;
    }
  }

  // ---------------------------------------------------------------------------
  // The source tree and its image
  // ---------------------------------------------------------------------------

  predicate InTree(src: Files, from: Path, s: Path) {
    s in src && from <= s
  }

  function Image(from: Path, to: Path, s: Path): Path
    requires from <= s
  {
    to + s[|from|..]
  }

  function Origin(from: Path, to: Path, p: Path): Path
    requires to <= p
  {
    from + p[|to|..]
  }

  lemma ImageOrigin(from: Path, to: Path, s: Path)
    requires from <= s
    ensures to <= Image(from, to, s) && Origin(from, to, Image(from, to, s)) == s
    ensures s != from ==> s != [] && from <= Parent(s) && Image(from, to, s) != []
                          && Parent(Image(from, to, s)) == Image(from, to, Parent(s))
    ensures Image(from, to, from) == to
    ensures Image(from, to, s) == to ==> s == from
  {
    var p := Image(from, to, s);
    assert p[|to|..] == s[|from|..];
    assert s == from + s[|from|..];
  }

  lemma ImageChild(from: Path, to: Path, s: Path, name: string)
    requires from <= s
    ensures from <= s + [name] && Image(from, to, s + [name]) == Image(from, to, s) + [name]
  {
  }

  lemma OriginImage(from: Path, to: Path, p: Path)
    requires to <= p
    ensures from <= Origin(from, to, p) && Image(from, to, Origin(from, to, p)) == p
  {
    assert Origin(from, to, p)[|from|..] == p[|to|..];
  }

  /** The destination when the paths in `done` have been copied over `base`. */
  function At(src: Files, from: Path, base: Files, to: Path, done: set<Path>, p: Path): Option<Node> {
    if to <= p && Origin(from, to, p) in done then Lookup(src, Origin(from, to, p)) else Lookup(base, p)
  }

  ghost predicate Copied(src: Files, from: Path, base: Files, to: Path, done: set<Path>, out: Files) {
    && (forall s <- done :: InTree(src, from, s))
    && (forall p :: Lookup(out, p) == At(src, from, base, to, done, p))
  }

  /** One more path. */
  lemma CopiedNext(src: Files, from: Path, base: Files, to: Path, done: set<Path>, out: Files, s: Path, now: Files)
    requires Copied(src, from, base, to, done, out) && InTree(src, from, s)
    requires forall p :: Lookup(now, p) == if p == Image(from, to, s) then Some(src[s]) else Lookup(out, p)
    ensures Copied(src, from, base, to, done + {s}, now)
  {
    forall p ensures Lookup(now, p) == At(src, from, base, to, done + {s}, p) {
      ImageOrigin(from, to, s);
      if to <= p {
        OriginImage(from, to, p);
      }
    }
  }

  /** A path of the tree stands where it belongs once copied, and until then what was there before. */
  lemma CopiedAt(src: Files, from: Path, base: Files, to: Path, done: set<Path>, out: Files, s: Path)
    requires Copied(src, from, base, to, done, out) && InTree(src, from, s)
    ensures Lookup(out, Image(from, to, s)) ==
            if s in done then Some(src[s]) else Lookup(base, Image(from, to, s))
  {
    ImageOrigin(from, to, s);
  }

  // ---------------------------------------------------------------------------
  // Listing and walking the source
  // ---------------------------------------------------------------------------

  const DOT: string := "."
  const DOT_DOT: string := ".."

  predicate IsDots(name: string) {
    name == DOT || name == DOT_DOT
  }

  const SLASH: char := '/'

  /** A name that stands for one entry of its directory. */
  predicate Normal(name: string) {
    name != [] && SLASH !in name && !IsDots(name)
  }

  /** The components of a name, as a path is read: empty ones and single dots stand for nothing. */
  function Components(parts: seq<string>): seq<string> {
    if parts == [] then []
    else (if parts[0] == [] || parts[0] == DOT then [] else [parts[0]]) + Components(parts[1..])
  }

  function Resolve(p: Path, components: seq<string>): Path
    decreases |components|
  {
    if components == [] then p
    else if components[0] == DOT_DOT then Resolve(if p == [] then [] else Parent(p), components[1..])
    else Resolve(p + [components[0]], components[1..])
  }

  /** Where `join` of any name leads; an absolute name starts over at the root. */
  function Join(p: Path, name: string): Path {
    Resolve(if name != [] && name[0] == SLASH then [] else p, Components(Text.Split(name, SLASH)))
  }

  lemma {:induction false} ComponentsNoSlash(name: string)
    ensures forall c <- Components(Text.Split(name, SLASH)) :: SLASH !in c
    decreases |name|
  {
    match Text.Find(name, SLASH)
    case None =>
      assert Text.Split(name, SLASH)[1..] == [];
    case Some(i) =>
      ComponentsNoSlash(name[i + 1..]);
      assert Text.Split(name, SLASH)[1..] == Text.Split(name[i + 1..], SLASH);
  }

  lemma {:induction false} ResolvedFrom(p: Path, components: seq<string>)
    ensures var r := Resolve(p, components);
            forall i :: 0 <= i < |r| ==> (i < |p| && r[i] == p[i]) || r[i] in components
    decreases |components|
  {
    if components != [] {
      var q := if components[0] == DOT_DOT then if p == [] then [] else Parent(p) else p + [components[0]];
      ResolvedFrom(q, components[1..]);
      assert components[0] in components && forall c <- components[1..] :: c in components;
    }
  }

  lemma OneComponent(name: string)
    requires SLASH !in name
    ensures Components(Text.Split(name, SLASH)) == if name == [] || name == DOT then [] else [name]
  {
    assert Text.Split(name, SLASH) == [name] && [name][1..] == [];
  }

  /** Joining a name leads to the entry of that name in the directory exactly when the name is normal:
      with a slash, or as one of the dots, it leads elsewhere. */
  lemma JoinExactly(p: Path, name: string)
    ensures Join(p, name) == p + [name] <==> Normal(name)
  {
    var components := Components(Text.Split(name, SLASH));
    var from := if name != [] && name[0] == SLASH then [] else p;
    if SLASH in name {
      ComponentsNoSlash(name);
      ResolvedFrom(from, components);
      if |Resolve(from, components)| == |p| + 1 {
        assert Resolve(from, components)[|p|] in components;
        assert (p + [name])[|p|] == name;
      }
    } else {
      OneComponent(name);
      if name == [] || name == DOT {
        assert Join(p, name) == p;
      } else {
        assert name[0] in name && components == [name] && components[1..] == [];
        var q := if name != DOT_DOT then p + [name] else if p == [] then [] else Parent(p);
        assert Join(p, name) == Resolve(p, components) == Resolve(q, components[1..]) == q;
        assert name == DOT_DOT ==> |q| != |p + [name]|;
      }
    }
  }

  ghost predicate NoRepeat<T>(s: seq<T>) {
    forall i, j :: 0 <= i < j < |s| ==> s[i] != s[j]
  }

  /** A listing names each entry once, in any order; the two dot entries may be among them, and every
      other name is a normal one. */
  ghost predicate Lists(src: Files, listing: Path -> seq<string>) {
    forall d :: IsDir(src, d) ==>
      && NoRepeat(listing(d)) && (forall n <- listing(d) :: IsDots(n) || Normal(n))
      && forall s :: s != [] && Parent(s) == d ==> (s in src <==> s[|s| - 1] in listing(d) && !IsDots(s[|s| - 1]))
  }

  predicate IsKid(src: Files, d: Path, name: string, dirs: bool) {
    !IsDots(name) && d + [name] in src && src[d + [name]].Dir? == dirs
  }

  /** The listed directories, or the listed files. */
  function Kids(src: Files, d: Path, names: seq<string>, dirs: bool): seq<Path> {
    if names == [] then []
    else
      var last := names[|names| - 1];
      Kids(src, d, names[..|names| - 1], dirs) + if IsKid(src, d, last, dirs) then [d + [last]] else []
  }

  lemma KidsNext(src: Files, d: Path, names: seq<string>, n: nat, dirs: bool)
    requires n < |names|
    ensures Kids(src, d, names[..n + 1], dirs) ==
            Kids(src, d, names[..n], dirs) + if IsKid(src, d, names[n], dirs) then [d + [names[n]]] else []
  {
    assert names[..n + 1][..n] == names[..n];
  }

  lemma {:induction false} KidsMembers(src: Files, d: Path, names: seq<string>, dirs: bool)
    requires NoRepeat(names)
    ensures NoRepeat(Kids(src, d, names, dirs))
    ensures forall s :: s in Kids(src, d, names, dirs) <==>
                          s != [] && Parent(s) == d && s[|s| - 1] in names && IsKid(src, d, s[|s| - 1], dirs)
    decreases |names|
  {
    if names != [] {
      var init, last := names[..|names| - 1], names[|names| - 1];
      assert names == init + [last];
      KidsMembers(src, d, init, dirs);
      assert Parent(d + [last]) == d && (d + [last])[|d|] == last;
      forall s: Path | s != [] && Parent(s) == d ensures s == d + [s[|s| - 1]] {
      }
    }
  }

  lemma LastName(s: Path, d: Path)
    requires s != [] && Parent(s) == d
    ensures s == d + [s[|s| - 1]]
  {
  }

  lemma KidsExact(src: Files, listing: Path -> seq<string>, d: Path, dirs: bool)
    requires Lists(src, listing) && IsDir(src, d)
    ensures NoRepeat(Kids(src, d, listing(d), dirs))
    ensures forall s :: s in Kids(src, d, listing(d), dirs) <==>
                          s in src && s != [] && Parent(s) == d && src[s].Dir? == dirs
  {
    KidsMembers(src, d, listing(d), dirs);
    forall s: Path
      ensures s in Kids(src, d, listing(d), dirs) <==> s in src && s != [] && Parent(s) == d && src[s].Dir? == dirs
    {
      if s != [] && Parent(s) == d {
        LastName(s, d);
      }
    }
  }

  predicate DirIn(src: Files, from: Path, d: Path) {
    InTree(src, from, d) && src[d].Dir?
  }

  function DirsOf(src: Files): set<Path> {
    set p | p in src && src[p].Dir?
  }

  /** A directory is expanded or waiting exactly when its parent has been expanded. */
  ghost predicate Frontier(src: Files, from: Path, expanded: set<Path>, work: seq<Path>) {
    forall d :: DirIn(src, from, d) && d != from && d != [] ==>
      (Parent(d) in expanded <==> d in expanded || d in work)
  }

  /** The worklist holds, once each, the unexpanded directories whose parent has been expanded. */
  ghost predicate Walk(src: Files, from: Path, expanded: set<Path>, work: seq<Path>) {
    && NoRepeat(work)
    && (forall w <- work :: DirIn(src, from, w) && w !in expanded)
    && (forall d <- expanded :: DirIn(src, from, d))
    && (if expanded == {} then from in work else from in expanded)
    && Frontier(src, from, expanded, work)
  }

  lemma ChildBelow(from: Path, w: Path, k: Path)
    requires from <= w && k != [] && Parent(k) == w
    ensures from <= k && k != from
  {
    assert k == w + [k[|k| - 1]];
  }

  lemma KidsIn(src: Files, listing: Path -> seq<string>, from: Path, w: Path, dirs: bool)
    requires Lists(src, listing) && DirIn(src, from, w)
    ensures var kids := Kids(src, w, listing(w), dirs);
            && NoRepeat(kids)
            && forall k :: k in kids <==> InTree(src, from, k) && k != [] && k != from && Parent(k) == w && src[k].Dir? == dirs
  {
    KidsExact(src, listing, w, dirs);
    forall k: Path | k != [] && Parent(k) == w ensures from <= k && k != from {
      ChildBelow(from, w, k);
    }
  }

  lemma KidsFresh(src: Files, listing: Path -> seq<string>, from: Path, expanded: set<Path>, work: seq<Path>, w: Path)
    requires Lists(src, listing) && Walk(src, from, expanded, work) && w in work
    ensures forall k <- Kids(src, w, listing(w), true) :: k !in expanded && k !in work
  {
    KidsIn(src, listing, from, w, true);
    forall k | k in Kids(src, w, listing(w), true) ensures k !in expanded && k !in work {
      assert DirIn(src, from, k) && Parent(k) == w && w !in expanded;
    }
  }

  lemma NoRepeatConcat<T>(a: seq<T>, b: seq<T>)
    requires NoRepeat(a) && NoRepeat(b) && forall x <- b :: x !in a
    ensures NoRepeat(a + b)
  {
    forall i, j | 0 <= i < j < |a + b| ensures (a + b)[i] != (a + b)[j] {
      if i < |a| <= j {
        assert (a + b)[j] in b && (a + b)[i] in a;
      }
    }
  }

  lemma FrontierNext(src: Files, from: Path, expanded: set<Path>, work: seq<Path>, rest: seq<Path>, w: Path, kids: seq<Path>)
    requires Frontier(src, from, expanded, work)
    requires forall d :: d in work <==> d in rest || d == w
    requires forall k :: k in kids <==> InTree(src, from, k) && k != [] && k != from && Parent(k) == w && src[k].Dir?
    ensures Frontier(src, from, expanded + {w}, rest + kids)
  {
  }

  /** The root is taken first; any other directory after its parent. */
  lemma TakenFrom(src: Files, from: Path, expanded: set<Path>, work: seq<Path>, w: Path)
    requires Walk(src, from, expanded, work) && w in work
    ensures expanded == {} <==> w == from
    ensures w != from ==> w != [] && Parent(w) in expanded
  {
    if w != from {
      ImageOrigin(from, from, w);
    }
  }

  lemma WalkNext(src: Files, listing: Path -> seq<string>, from: Path, expanded: set<Path>, work: seq<Path>)
    requires Lists(src, listing) && Walk(src, from, expanded, work) && work != []
    ensures var w := work[|work| - 1];
            Walk(src, from, expanded + {w}, work[..|work| - 1] + Kids(src, w, listing(w), true))
  {
    var init, w := work[..|work| - 1], work[|work| - 1];
    var kids := Kids(src, w, listing(w), true);
    assert work == init + [w];
    KidsIn(src, listing, from, w, true);
    KidsFresh(src, listing, from, expanded, work, w);
    NoRepeatConcat(init, kids);
    assert forall d :: d in work <==> d in init || d == w;
    TakenFrom(src, from, expanded, work, w);
    FrontierNext(src, from, expanded, work, init, w, kids);
    assert w !in init;
    forall k | k in init + kids ensures DirIn(src, from, k) && k !in expanded + {w} {
      assert k in init || k in kids;
    }
  }

  lemma {:induction false} WalkEnd(src: Files, from: Path, expanded: set<Path>, s: Path)
    requires WellFormed(src) && Walk(src, from, expanded, []) && InTree(src, from, s)
    ensures src[s].Dir? ==> s in expanded
    ensures s != from ==> s != [] && Parent(s) in expanded
    decreases |s|
  {
    if s != from {
      ImageOrigin(from, from, s);
      WalkEnd(src, from, expanded, Parent(s));
    }
  }

  // ---------------------------------------------------------------------------
  // Copying
  // ---------------------------------------------------------------------------

  /** A source path and where it goes. */
  type Pair = (Path, Path)

  ghost function Sources(pairs: seq<Pair>): (r: seq<Path>)
    ensures |r| == |pairs| && forall i :: 0 <= i < |r| ==> r[i] == pairs[i].0
  {
    seq(|pairs|, i requires 0 <= i < |pairs| => pairs[i].0)
  }

  ghost predicate Paired(from: Path, to: Path, pairs: seq<Pair>) {
    forall p <- pairs :: from <= p.0 && p.1 == Image(from, to, p.0)
  }

  /** What stands at the destination is of the same kind as what is to be copied there. */
  predicate Fits(base: Files, from: Path, to: Path, src: Files, s: Path)
    requires InTree(src, from, s)
  {
    Image(from, to, s) in base ==> base[Image(from, to, s)].Dir? == src[s].Dir?
  }

  /** Something below the root is in the way of something of the other kind. */
  ghost predicate Obstructed(src: Files, from: Path, base: Files, to: Path) {
    exists s :: InTree(src, from, s) && s != from && !Fits(base, from, to, src, s)
  }

  ghost predicate CopyState(src: Files, from: Path, base: Files, to: Path, done: set<Path>, out: Files, copied: seq<Path>) {
    && Copied(src, from, base, to, done, out)
    && (forall s <- done :: Fits(base, from, to, src, s))
    && NoRepeat(copied)
    && (forall s :: s in copied <==> s in done && src[s].File?)
  }

  lemma DirDone(src: Files, from: Path, base: Files, to: Path, done: set<Path>, out: Files, copied: seq<Path>, s: Path, now: Files)
    requires CopyState(src, from, base, to, done, out, copied) && DirIn(src, from, s)
    requires Fits(base, from, to, src, s)
    requires forall p :: Lookup(now, p) == if p == Image(from, to, s) then Some(Dir) else Lookup(out, p)
    ensures CopyState(src, from, base, to, done + {s}, now, copied)
  {
    CopiedNext(src, from, base, to, done, out, s, now);
  }

  lemma FileDone(src: Files, from: Path, base: Files, to: Path, done: set<Path>, out: Files, copied: seq<Path>, s: Path, now: Files)
    requires CopyState(src, from, base, to, done, out, copied) && InTree(src, from, s) && src[s].File? && s !in done
    requires Fits(base, from, to, src, s)
    requires forall p :: Lookup(now, p) == if p == Image(from, to, s) then Some(src[s]) else Lookup(out, p)
    ensures CopyState(src, from, base, to, done + {s}, now, copied + [s])
  {
    CopiedNext(src, from, base, to, done, out, s, now);
    NoRepeatConcat(copied, [s]);
  }

  /** One file: the destination must not be a directory, and its parent is already there. */
  method CopyFile(src: Files, from: Path, ghost base: Files, to: Path, ghost done: set<Path>, out: Files,
                  copied: seq<Path>, pair: Pair, sizes: nat -> nat)
    returns (ok: bool, now: Files, log: seq<Path>)
    requires CopyState(src, from, base, to, done, out, copied)
    requires InTree(src, from, pair.0) && src[pair.0].File? && pair.0 != from && pair.0 !in done
    requires Parent(pair.0) in done && DirIn(src, from, Parent(pair.0)) && pair.1 == Image(from, to, pair.0)
    ensures ok <==> Fits(base, from, to, src, pair.0)
    ensures ok ==> CopyState(src, from, base, to, done + {pair.0}, now, log)
    ensures !ok ==> now == out && log == copied
  {
    var s := pair.0;
    var data := CopyChunks(src[s].data, sizes);
    ImageOrigin(from, to, s);
    CopiedAt(src, from, base, to, done, out, s);
    CopiedAt(src, from, base, to, done, out, Parent(s));
    var made := CreateFile(out, pair.1, data);
    match made
    case None => return false, out, copied;
    case Some(g) =>
      FileDone(src, from, base, to, done, out, copied, s, g);
      return true, g, copied + [s];
  }

  /** The files of one directory, after its directories have been queued. */
  method CopyFiles(src: Files, from: Path, ghost base: Files, to: Path, ghost done: set<Path>, out: Files,
                   copied: seq<Path>, files: seq<Pair>, sizes: nat -> nat)
    returns (ok: bool, now: Files, log: seq<Path>, ghost d: set<Path>)
    requires CopyState(src, from, base, to, done, out, copied)
    requires NoRepeat(Sources(files)) && Paired(from, to, files)
    requires forall p <- files :: InTree(src, from, p.0) && src[p.0].File? && p.0 != from && p.0 !in done
    requires forall p <- files :: p.0 != [] && Parent(p.0) in done && DirIn(src, from, Parent(p.0))
    ensures CopyState(src, from, base, to, d, now, log)
    ensures ok ==> forall s :: s in d <==> s in done || s in Sources(files)
    ensures !ok ==> Obstructed(src, from, base, to)
  {
    ok, now, log, d := true, out, copied, done;
    for i := 0 to |files|
      invariant CopyState(src, from, base, to, d, now, log)
      invariant forall s :: s in d <==> s in done || s in Sources(files)[..i]
    {
      assert files[i] in files && Sources(files)[..i + 1] == Sources(files)[..i] + [files[i].0];
      ok, now, log := CopyFile(src, from, base, to, d, now, log, files[i], sizes);
      if !ok {
        return;
      }
      d := d + {files[i].0};
    }
    assert Sources(files)[..|files|] == Sources(files);
  }

  // ---------------------------------------------------------------------------
  // Download
  // ---------------------------------------------------------------------------

  /** The destination after a complete copy over `base`. */
  function Overlaid(src: Files, from: Path, base: Files, to: Path, p: Path): Option<Node> {
    if to <= p && InTree(src, from, Origin(from, to, p)) then Some(src[Origin(from, to, p)]) else Lookup(base, p)
  }

  lemma CompleteCopy(src: Files, from: Path, base: Files, to: Path, done: set<Path>, out: Files)
    requires Copied(src, from, base, to, done, out) && forall s :: InTree(src, from, s) ==> s in done
    ensures forall p :: Lookup(out, p) == Overlaid(src, from, base, to, p)
  {
    forall p ensures Lookup(out, p) == Overlaid(src, from, base, to, p) {
      assert Lookup(out, p) == At(src, from, base, to, done, p);
    }
  }

  lemma PairsConcat(from: Path, to: Path, a: seq<Pair>, b: seq<Pair>)
    ensures Sources(a + b) == Sources(a) + Sources(b)
    ensures Paired(from, to, a + b) <==> Paired(from, to, a) && Paired(from, to, b)
  {
    assert forall p <- a :: p in a + b;
    assert forall p <- b :: p in a + b;
  }

  lemma OnePair(from: Path, to: Path, pair: Pair)
    ensures Sources([pair]) == [pair.0]
    ensures Paired(from, to, [pair]) <==> from <= pair.0 && pair.1 == Image(from, to, pair.0)
  {
    assert pair in [pair];
  }

  /** The two lists that a scan of a directory builds. */
  ghost predicate Scanned(src: Files, from: Path, to: Path, w: Path, names: seq<string>, dirs: seq<Pair>, files: seq<Pair>) {
    && Sources(dirs) == Kids(src, w, names, true) && Paired(from, to, dirs)
    && Sources(files) == Kids(src, w, names, false) && Paired(from, to, files)
  }

  lemma ScannedNext(src: Files, from: Path, to: Path, pair: Pair, names: seq<string>, i: nat, dirs: seq<Pair>,
                    files: seq<Pair>)
    requires i < |names| && from <= pair.0 && pair.1 == Image(from, to, pair.0)
    requires Scanned(src, from, to, pair.0, names[..i], dirs, files)
    ensures var child := (pair.0 + [names[i]], pair.1 + [names[i]]);
            Scanned(src, from, to, pair.0, names[..i + 1],
                    if IsKid(src, pair.0, names[i], true) then dirs + [child] else dirs,
                    if IsKid(src, pair.0, names[i], false) then files + [child] else files)
  {
    var child := (pair.0 + [names[i]], pair.1 + [names[i]]);
    KidsNext(src, pair.0, names, i, true);
    KidsNext(src, pair.0, names, i, false);
    ImageChild(from, to, pair.0, names[i]);
    OnePair(from, to, child);
    PairsConcat(from, to, dirs, [child]);
    PairsConcat(from, to, files, [child]);
  }

  method ScanDir(src: Files, from: Path, to: Path, pair: Pair, names: seq<string>)
    returns (dirs: seq<Pair>, files: seq<Pair>)
    requires from <= pair.0 && pair.1 == Image(from, to, pair.0)
    requires forall n <- names :: IsDots(n) || (Normal(n) && pair.0 + [n] in src)
    ensures Scanned(src, from, to, pair.0, names, dirs, files)
  {
    dirs, files := [], [];
    for i := 0 to |names|
      invariant Scanned(src, from, to, pair.0, names[..i], dirs, files)
    {
      ScannedNext(src, from, to, pair, names, i, dirs, files);
      if IsDots(names[i]) {
        continue;
      }
      JoinExactly(pair.0, names[i]);
      JoinExactly(pair.1, names[i]);
      var child := (Join(pair.0, names[i]), Join(pair.1, names[i]));
      if src[child.0].Dir? {
        dirs := dirs + [child];
      } else {
        files := files + [child];
      }
    }
    assert names[..|names|] == names;
  }

  /** What a download has copied: the expanded directories and their files. */
  ghost predicate Fetched(src: Files, from: Path, expanded: set<Path>, done: set<Path>) {
    forall s :: s in done <==>
      InTree(src, from, s) && if src[s].Dir? then s in expanded else s != from && s != [] && Parent(s) in expanded
  }

  /** The local root and its ancestors, made by the first step. */
  ghost predicate RootMade(base: Files, dst: Files, to: Path) {
    NoFileAbove(dst, to) && CreateDirAll(dst, to) == Some(base)
  }

  /** Between two turns of the loop. Before the first, the destination is untouched. */
  ghost predicate Fetching(src: Files, from: Path, base: Files, dst: Files, to: Path, expanded: set<Path>,
                           done: set<Path>, out: Files, copied: seq<Path>) {
    && Fetched(src, from, expanded, done)
    && if expanded == {} then out == dst && done == {} && copied == []
       else RootMade(base, dst, to) && CopyState(src, from, base, to, done, out, copied)
  }

  lemma FirstDir(src: Files, from: Path, dst: Files, to: Path, base: Files)
    requires DirIn(src, from, from) && WellFormed(dst) && CreateDirAll(dst, to) == Some(base)
    ensures RootMade(base, dst, to) && CopyState(src, from, base, to, {from}, base, [])
  {
    CreateDirAllEffect(dst, to);
    ImageOrigin(from, to, from);
    assert Above(to, to) && Lookup(base, to) == Some(Dir);
    assert Copied(src, from, base, to, {}, base);
    CopiedNext(src, from, base, to, {}, base, from, base);
    assert {} + {from} == {from};
  }

  /** `create_dir_all` on a directory whose parent has been copied. */
  lemma NextDir(src: Files, from: Path, base: Files, to: Path, done: set<Path>, out: Files, copied: seq<Path>, w: Path)
    requires CopyState(src, from, base, to, done, out, copied) && DirIn(src, from, w) && w != from && w !in done
    requires w != [] && Parent(w) in done && DirIn(src, from, Parent(w))
    ensures var made := CreateDirAll(out, Image(from, to, w));
            && (made.Some? <==> Fits(base, from, to, src, w))
            && (made.Some? ==> CopyState(src, from, base, to, done + {w}, made.value, copied))
  {
    ImageOrigin(from, to, w);
    CopiedAt(src, from, base, to, done, out, w);
    CopiedAt(src, from, base, to, done, out, Parent(w));
    var p := Image(from, to, w);
    assert IsDir(out, Parent(p)) && CreateDirAll(out, Parent(p)) == Some(out);
    var made := CreateDirAll(out, p);
    if made.Some? {
      DirDone(src, from, base, to, done, out, copied, w, made.value);
    }
  }

  /** The directory of one turn; `None` when something is in its way. */
  method MakeLocalDir(src: Files, from: Path, ghost base: Files, dst: Files, to: Path, ghost expanded: set<Path>,
                      ghost done: set<Path>, ghost work: seq<Path>, out: Files, copied: seq<Path>, pair: Pair)
    returns (made: Option<Files>, ghost b: Files)
    requires WellFormed(dst) && DirIn(src, from, from)
    requires Walk(src, from, expanded, work) && pair.0 in work && pair.1 == Image(from, to, pair.0)
    requires Fetching(src, from, base, dst, to, expanded, done, out, copied)
    ensures made.Some? ==> RootMade(b, dst, to) && CopyState(src, from, b, to, done + {pair.0}, made.value, copied)
    ensures made.None? ==> if expanded == {} then !NoFileAbove(dst, to)
                           else RootMade(base, dst, to) && Obstructed(src, from, base, to)
    ensures expanded != {} ==> b == base
  {
    var w := pair.0;
    TakenFrom(src, from, expanded, work, w);
    made := CreateDirAll(out, pair.1);
    b := base;
    if expanded == {} {
      ImageOrigin(from, to, from);
      CreateDirAllEffect(dst, to);
      if made.Some? {
        b := made.value;
        FirstDir(src, from, dst, to, b);
        assert {} + {w} == {from};
      }
    } else {
      NextDir(src, from, base, to, done, out, copied, w);
    }
  }

  /** The files copied in the turn of `w`. */
  lemma FilesOf(src: Files, listing: Path -> seq<string>, from: Path, expanded: set<Path>, done: set<Path>, w: Path,
                files: seq<Pair>)
    requires Lists(src, listing) && DirIn(src, from, w) && w !in expanded && Fetched(src, from, expanded, done)
    requires Sources(files) == Kids(src, w, listing(w), false)
    ensures NoRepeat(Sources(files))
    ensures forall p <- files :: InTree(src, from, p.0) && src[p.0].File? && p.0 != from && p.0 !in done + {w}
    ensures forall p <- files :: p.0 != [] && Parent(p.0) == w
  {
    KidsIn(src, listing, from, w, false);
    forall p | p in files ensures p.0 in Sources(files) {
      var i :| 0 <= i < |files| && files[i] == p;
      assert Sources(files)[i] == p.0;
    }
  }

  lemma FetchedNext(src: Files, listing: Path -> seq<string>, from: Path, expanded: set<Path>, done: set<Path>, w: Path,
                    d: set<Path>)
    requires Lists(src, listing) && DirIn(src, from, w) && Fetched(src, from, expanded, done)
    requires forall s :: s in d <==> s in done + {w} || s in Kids(src, w, listing(w), false)
    ensures Fetched(src, from, expanded + {w}, d)
  {
    KidsIn(src, listing, from, w, false);
  }

  ghost predicate Possible(src: Files, from: Path, dst: Files, to: Path) {
    NoFileAbove(dst, to) && !Obstructed(src, from, dst, to)
  }

  /** What a complete download leaves at each path. */
  function Downloaded(src: Files, from: Path, dst: Files, to: Path, p: Path): Option<Node> {
    if to <= p && InTree(src, from, Origin(from, to, p)) then Some(src[Origin(from, to, p)])
    else if Above(p, to) then Some(Dir)
    else Lookup(dst, p)
  }

  lemma RootMadeLookup(src: Files, from: Path, base: Files, dst: Files, to: Path)
    requires WellFormed(dst) && RootMade(base, dst, to)
    ensures forall p :: Overlaid(src, from, base, to, p) == Downloaded(src, from, dst, to, p)
    ensures Obstructed(src, from, base, to) <==> Obstructed(src, from, dst, to)
  {
    CreateDirAllEffect(dst, to);
    forall s | InTree(src, from, s) && s != from ensures Fits(base, from, to, src, s) <==> Fits(dst, from, to, src, s) {
      ImageOrigin(from, to, s);
      assert !Above(Image(from, to, s), to);
      assert Lookup(base, Image(from, to, s)) == Lookup(dst, Image(from, to, s));
    }
  }

  ghost predicate PartOf(src: Files, from: Path, dst: Files, to: Path, out: Files) {
    forall p :: Lookup(out, p) == Lookup(dst, p) || Lookup(out, p) == Downloaded(src, from, dst, to, p)
  }

  lemma PartialDownload(src: Files, from: Path, base: Files, dst: Files, to: Path, done: set<Path>, out: Files)
    requires WellFormed(dst) && RootMade(base, dst, to) && Copied(src, from, base, to, done, out)
    requires DirIn(src, from, from)
    ensures PartOf(src, from, dst, to, out)
  {
    CreateDirAllEffect(dst, to);
    ImageOrigin(from, to, from);
    forall p ensures Lookup(out, p) == Lookup(dst, p) || Lookup(out, p) == Downloaded(src, from, dst, to, p) {
      assert Lookup(out, p) == At(src, from, base, to, done, p);
      if Above(p, to) && to <= p {
        assert p == to && Origin(from, to, p) == from;
      }
    }
  }

  /** A copy that could not be completed. */
  ghost predicate Stopped(src: Files, from: Path, dst: Files, to: Path, out: Files, copied: seq<Path>) {
    && !Possible(src, from, dst, to) && PartOf(src, from, dst, to, out)
    && NoRepeat(copied) && forall s <- copied :: InTree(src, from, s) && src[s].File?
  }

  lemma FilesFailed(src: Files, from: Path, base: Files, dst: Files, to: Path, done: set<Path>, out: Files,
                    copied: seq<Path>)
    requires WellFormed(dst) && DirIn(src, from, from) && RootMade(base, dst, to)
    requires CopyState(src, from, base, to, done, out, copied) && Obstructed(src, from, base, to)
    ensures Stopped(src, from, dst, to, out, copied)
  {
    RootMadeLookup(src, from, base, dst, to);
    PartialDownload(src, from, base, dst, to, done, out);
  }

  lemma FetchFailed(src: Files, from: Path, base: Files, dst: Files, to: Path, expanded: set<Path>, done: set<Path>,
                    out: Files, copied: seq<Path>)
    requires WellFormed(dst) && DirIn(src, from, from)
    requires Fetching(src, from, base, dst, to, expanded, done, out, copied)
    requires if expanded == {} then !NoFileAbove(dst, to) else RootMade(base, dst, to) && Obstructed(src, from, base, to)
    ensures Stopped(src, from, dst, to, out, copied)
  {
    if expanded != {} {
      RootMadeLookup(src, from, base, dst, to);
      PartialDownload(src, from, base, dst, to, done, out);
    }
  }

  lemma FetchedAll(src: Files, from: Path, expanded: set<Path>, done: set<Path>)
    requires WellFormed(src) && Walk(src, from, expanded, []) && Fetched(src, from, expanded, done)
    ensures expanded != {} && forall s :: InTree(src, from, s) <==> s in done
  {
    forall s | InTree(src, from, s) ensures s in done {
      WalkEnd(src, from, expanded, s);
    }
  }

  lemma LastSplit<T>(s: seq<T>)
    requires s != []
    ensures s == s[..|s| - 1] + [s[|s| - 1]]
  {
  }

  lemma WorkNext(src: Files, listing: Path -> seq<string>, from: Path, to: Path, expanded: set<Path>, rest: seq<Pair>,
                 pair: Pair, dirs: seq<Pair>)
    requires Lists(src, listing) && Walk(src, from, expanded, Sources(rest) + [pair.0])
    requires Sources(dirs) == Kids(src, pair.0, listing(pair.0), true)
    ensures Walk(src, from, expanded + {pair.0}, Sources(rest) + Sources(dirs))
  {
    var before := Sources(rest) + [pair.0];
    WalkNext(src, listing, from, expanded, before);
    assert before[..|before| - 1] == Sources(rest);
  }

  lemma FetchStart(src: Files, from: Path, dst: Files, to: Path)
    requires IsDir(src, from)
    ensures Walk(src, from, {}, [from]) && Paired(from, to, [(from, to)]) && Sources([(from, to)]) == [from]
    ensures Fetching(src, from, dst, dst, to, {}, {}, dst, [])
  {
    ImageOrigin(from, to, from);
    OnePair(from, to, (from, to));
  }

  lemma FetchEnd(src: Files, from: Path, base: Files, dst: Files, to: Path, expanded: set<Path>, done: set<Path>,
                 out: Files, copied: seq<Path>)
    requires WellFormed(src) && WellFormed(dst) && IsDir(src, from) && Walk(src, from, expanded, [])
    requires Fetching(src, from, base, dst, to, expanded, done, out, copied)
    ensures Possible(src, from, dst, to) && PartOf(src, from, dst, to, out)
    ensures forall p :: Lookup(out, p) == Downloaded(src, from, dst, to, p)
    ensures NoRepeat(copied) && forall s :: s in copied <==> InTree(src, from, s) && src[s].File?
  {
    FetchedAll(src, from, expanded, done);
    CompleteCopy(src, from, base, to, done, out);
    RootMadeLookup(src, from, base, dst, to);
    assert !Obstructed(src, from, base, to);
  }

  lemma ListedNames(src: Files, listing: Path -> seq<string>, w: Path)
    requires Lists(src, listing) && IsDir(src, w)
    ensures forall n <- listing(w) :: IsDots(n) || (Normal(n) && w + [n] in src)
  {
    forall n | n in listing(w) && !IsDots(n) ensures w + [n] in src {
      var s := w + [n];
      assert Parent(s) == w && s[|s| - 1] == n;
    }
  }

  /** One turn: the last directory of the worklist, what it queues, and its files. */
  method FetchDir(src: Files, listing: Path -> seq<string>, from: Path, ghost base: Files, dst: Files, to: Path,
                  ghost expanded: set<Path>, ghost done: set<Path>, rest: seq<Pair>, pair: Pair, out: Files,
                  copied: seq<Path>, sizes: nat -> nat)
    returns (ok: bool, now: Files, log: seq<Path>, work: seq<Pair>, ghost b: Files, ghost d: set<Path>)
    requires WellFormed(dst) && Lists(src, listing) && DirIn(src, from, from)
    requires Walk(src, from, expanded, Sources(rest) + [pair.0]) && Paired(from, to, rest) && Paired(from, to, [pair])
    requires Fetching(src, from, base, dst, to, expanded, done, out, copied)
    ensures ok ==> Walk(src, from, expanded + {pair.0}, Sources(work)) && Paired(from, to, work)
    ensures ok ==> Fetching(src, from, b, dst, to, expanded + {pair.0}, d, now, log)
    ensures !ok ==> Stopped(src, from, dst, to, now, log)
    ensures pair.0 in DirsOf(src) - expanded
  {
    ghost var before := Sources(rest) + [pair.0];
    assert before[|rest|] == pair.0 && pair.0 in before;
    OnePair(from, to, pair);
    work, d := rest, done;
    var made;
    made, b := MakeLocalDir(src, from, base, dst, to, expanded, done, before, out, copied, pair);
    if made.None? {
      FetchFailed(src, from, base, dst, to, expanded, done, out, copied);
      return false, out, copied, work, b, d;
    }
    ListedNames(src, listing, pair.0);
    var dirs, files := ScanDir(src, from, to, pair, listing(pair.0));
    FilesOf(src, listing, from, expanded, done, pair.0, files);
    work := rest + dirs;
    PairsConcat(from, to, rest, dirs);
    WorkNext(src, listing, from, to, expanded, rest, pair, dirs);
    ok, now, log, d := CopyFiles(src, from, b, to, done + {pair.0}, made.value, copied, files, sizes);
    if ok {
      FetchedNext(src, listing, from, expanded, done, pair.0, d);
    } else {
      FilesFailed(src, from, b, dst, to, d, now, log);
    }
  }

  /** Each directory is taken once, so the loop ends; a complete copy happens exactly when nothing of
      another kind is in the way, each file is copied once, and no other path is touched. An interrupted
      copy leaves every path as it was or as the complete copy would. */
  method DownloadTree(src: Files, listing: Path -> seq<string>, from: Path, dst: Files, to: Path, sizes: nat -> nat)
    returns (ok: bool, out: Files, copied: seq<Path>)
    requires WellFormed(src) && WellFormed(dst) && IsDir(src, from) && Lists(src, listing)
    ensures ok <==> Possible(src, from, dst, to)
    ensures ok ==> forall p :: Lookup(out, p) == Downloaded(src, from, dst, to, p)
    ensures PartOf(src, from, dst, to, out)
    ensures NoRepeat(copied) && forall s <- copied :: InTree(src, from, s) && src[s].File?
    ensures ok ==> forall s :: InTree(src, from, s) && src[s].File? ==> s in copied
  {
    var work: seq<Pair> := [(from, to)];
    out, copied := dst, [];
    ghost var expanded: set<Path>, done: set<Path>, base := {}, {}, dst;
    FetchStart(src, from, dst, to);
    while work != []
      invariant Walk(src, from, expanded, Sources(work)) && Paired(from, to, work)
      invariant Fetching(src, from, base, dst, to, expanded, done, out, copied)
      decreases DirsOf(src) - expanded
    {
      var rest, pair := work[..|work| - 1], work[|work| - 1];
      LastSplit(work);
      PairsConcat(from, to, rest, [pair]);
      OnePair(from, to, pair);
      ghost var d;
      ok, out, copied, work, base, d :=
        FetchDir(src, listing, from, base, dst, to, expanded, done, rest, pair, out, copied, sizes);
      if !ok {
        return;
      }
      expanded, done := expanded + {pair.0}, d;
    }
    assert Sources(work) == [];
    FetchEnd(src, from, base, dst, to, expanded, done, out, copied);
    ok := true;
  }

  // ---------------------------------------------------------------------------
  // Upload
  // ---------------------------------------------------------------------------

  /** What an upload has copied: the root and the entries of the expanded directories. */
  ghost predicate Sent(src: Files, from: Path, expanded: set<Path>, done: set<Path>) {
    forall s :: s in done <==> InTree(src, from, s) && (s == from || (s != [] && Parent(s) in expanded))
  }

  ghost predicate RemoteRoot(base: Files, dst: Files, to: Path) {
    forall q :: Lookup(base, q) == if q == to then Some(Dir) else Lookup(dst, q)
  }

  predicate RootPossible(dst: Files, to: Path) {
    IsDir(dst, to) || CreateDir(dst, to).Some?
  }

  lemma RemoteRootLookup(src: Files, from: Path, base: Files, dst: Files, to: Path)
    requires IsDir(src, from) && RemoteRoot(base, dst, to)
    ensures forall p :: Overlaid(src, from, base, to, p) == Overlaid(src, from, dst, to, p)
    ensures Obstructed(src, from, base, to) <==> Obstructed(src, from, dst, to)
  {
    ImageOrigin(from, to, from);
    forall p ensures Overlaid(src, from, base, to, p) == Overlaid(src, from, dst, to, p) {
      if p == to {
        assert Origin(from, to, p) == from;
      }
    }
    forall s | InTree(src, from, s) && s != from ensures Fits(base, from, to, src, s) <==> Fits(dst, from, to, src, s) {
      ImageOrigin(from, to, s);
      assert Lookup(base, Image(from, to, s)) == Lookup(dst, Image(from, to, s));
    }
  }

  /** `ensure_remote_dir` on an entry of a copied directory. */
  lemma RemoteDir(src: Files, from: Path, base: Files, to: Path, done: set<Path>, out: Files, copied: seq<Path>, k: Path)
    requires CopyState(src, from, base, to, done, out, copied) && DirIn(src, from, k) && k != from
    requires k != [] && Parent(k) in done && DirIn(src, from, Parent(k))
    ensures RootPossible(out, Image(from, to, k)) <==> Fits(base, from, to, src, k)
    ensures Fits(base, from, to, src, k) ==>
              forall now :: (forall p :: Lookup(now, p) == if p == Image(from, to, k) then Some(Dir) else Lookup(out, p)) ==>
                CopyState(src, from, base, to, done + {k}, now, copied)
  {
    ImageOrigin(from, to, k);
    CopiedAt(src, from, base, to, done, out, k);
    CopiedAt(src, from, base, to, done, out, Parent(k));
    if Fits(base, from, to, src, k) {
      forall now | forall p :: Lookup(now, p) == if p == Image(from, to, k) then Some(Dir) else Lookup(out, p)
        ensures CopyState(src, from, base, to, done + {k}, now, copied)
      {
        DirDone(src, from, base, to, done, out, copied, k, now);
      }
    }
  }

  method MakeRemoteDir(src: Files, from: Path, ghost base: Files, to: Path, ghost done: set<Path>, out: Files,
                       ghost copied: seq<Path>, child: Pair)
    returns (made: Option<Files>)
    requires CopyState(src, from, base, to, done, out, copied) && DirIn(src, from, child.0) && child.0 != from
    requires child.0 != [] && Parent(child.0) in done && DirIn(src, from, Parent(child.0))
    requires child.1 == Image(from, to, child.0)
    ensures made.Some? ==> CopyState(src, from, base, to, done + {child.0}, made.value, copied)
    ensures made.None? ==> Obstructed(src, from, base, to)
  {
    RemoteDir(src, from, base, to, done, out, copied, child.0);
    made := EnsureDir(out, child.1);
  }

  lemma EntryOf(src: Files, from: Path, to: Path, w: Path, name: string)
    requires DirIn(src, from, w) && !IsDots(name) && w + [name] in src
    ensures var k := w + [name];
            && InTree(src, from, k) && k != [] && Parent(k) == w && k != from
            && Image(from, to, k) == Image(from, to, w) + [name]
            && IsKid(src, w, name, src[k].Dir?) && !IsKid(src, w, name, !src[k].Dir?)
  {
    ImageChild(from, to, w, name);
    assert Parent(w + [name]) == w;
    ChildBelow(from, w, w + [name]);
  }

  method ScanAndMake(src: Files, from: Path, ghost base: Files, to: Path, ghost done: set<Path>, out: Files,
                     ghost copied: seq<Path>, pair: Pair, names: seq<string>)
    returns (ok: bool, now: Files, dirs: seq<Pair>, files: seq<Pair>, ghost d: set<Path>)
    requires DirIn(src, from, pair.0) && pair.0 in done && pair.1 == Image(from, to, pair.0)
    requires forall n <- names :: Normal(n) && pair.0 + [n] in src
    requires CopyState(src, from, base, to, done, out, copied)
    ensures CopyState(src, from, base, to, d, now, copied)
    ensures !ok ==> Obstructed(src, from, base, to)
    ensures ok ==> forall s :: s in d <==> s in done || s in Sources(dirs)
    ensures ok ==> Scanned(src, from, to, pair.0, names, dirs, files)
  {
    ok, now, dirs, files, d := true, out, [], [], done;
    for i := 0 to |names|
      invariant CopyState(src, from, base, to, d, now, copied)
      invariant forall s :: s in d <==> s in done || s in Sources(dirs)
      invariant Scanned(src, from, to, pair.0, names[..i], dirs, files)
    {
      JoinExactly(pair.0, names[i]);
      JoinExactly(pair.1, names[i]);
      var child := (Join(pair.0, names[i]), Join(pair.1, names[i]));
      ScannedNext(src, from, to, pair, names, i, dirs, files);
      EntryOf(src, from, to, pair.0, names[i]);
      if src[child.0].Dir? {
        var made := MakeRemoteDir(src, from, base, to, d, now, copied, child);
        if made.None? {
          return false, now, dirs, files, d;
        }
        PairsConcat(from, to, dirs, [child]);
        OnePair(from, to, child);
        now, dirs, d := made.value, dirs + [child], d + {child.0};
      } else {
        files := files + [child];
      }
    }
    assert names[..|names|] == names;
  }

  lemma SentFiles(src: Files, listing: Path -> seq<string>, from: Path, expanded: set<Path>, done: set<Path>, w: Path,
                  dirs: seq<Pair>, files: seq<Pair>, d: set<Path>)
    requires Lists(src, listing) && DirIn(src, from, w) && w !in expanded && Sent(src, from, expanded, done)
    requires Sources(dirs) == Kids(src, w, listing(w), true) && Sources(files) == Kids(src, w, listing(w), false)
    requires forall s :: s in d <==> s in done || s in Sources(dirs)
    ensures NoRepeat(Sources(files))
    ensures forall p <- files :: InTree(src, from, p.0) && src[p.0].File? && p.0 != from && p.0 !in d
    ensures forall p <- files :: p.0 != [] && Parent(p.0) == w
  {
    KidsIn(src, listing, from, w, true);
    KidsIn(src, listing, from, w, false);
    forall p | p in files ensures p.0 in Sources(files) {
      var i :| 0 <= i < |files| && files[i] == p;
      assert Sources(files)[i] == p.0;
    }
  }

  lemma SentNext(src: Files, listing: Path -> seq<string>, from: Path, expanded: set<Path>, done: set<Path>, w: Path,
                 d: set<Path>)
    requires Lists(src, listing) && DirIn(src, from, w) && Sent(src, from, expanded, done)
    requires forall s :: s in d <==>
               s in done || s in Kids(src, w, listing(w), true) || s in Kids(src, w, listing(w), false)
    ensures Sent(src, from, expanded + {w}, d)
  {
    KidsIn(src, listing, from, w, true);
    KidsIn(src, listing, from, w, false);
  }

  ghost predicate UploadPossible(src: Files, from: Path, dst: Files, to: Path) {
    RootPossible(dst, to) && !Obstructed(src, from, dst, to)
  }

  ghost predicate PartUpload(src: Files, from: Path, dst: Files, to: Path, out: Files) {
    forall p :: Lookup(out, p) == Lookup(dst, p) || Lookup(out, p) == Overlaid(src, from, dst, to, p)
  }

  lemma PartialUpload(src: Files, from: Path, base: Files, dst: Files, to: Path, done: set<Path>, out: Files)
    requires IsDir(src, from) && RemoteRoot(base, dst, to) && Copied(src, from, base, to, done, out)
    ensures PartUpload(src, from, dst, to, out)
  {
    ImageOrigin(from, to, from);
    forall p ensures Lookup(out, p) == Lookup(dst, p) || Lookup(out, p) == Overlaid(src, from, dst, to, p) {
      assert Lookup(out, p) == At(src, from, base, to, done, p);
      if p == to {
        assert Origin(from, to, p) == from;
      }
    }
  }

  /** One turn: make the directories of one directory and queue them, then copy its files. */
  method SendDir(src: Files, listing: Path -> seq<string>, from: Path, ghost base: Files, to: Path,
                 ghost expanded: set<Path>, ghost done: set<Path>, rest: seq<Pair>, pair: Pair, out: Files,
                 copied: seq<Path>, sizes: nat -> nat)
    returns (ok: bool, now: Files, log: seq<Path>, work: seq<Pair>, ghost d: set<Path>)
    requires Lists(src, listing) && DirIn(src, from, from) && (forall n <- listing(pair.0) :: !IsDots(n))
    requires Walk(src, from, expanded, Sources(rest) + [pair.0]) && Paired(from, to, rest) && Paired(from, to, [pair])
    requires Sent(src, from, expanded, done) && CopyState(src, from, base, to, done, out, copied)
    ensures CopyState(src, from, base, to, d, now, log)
    ensures ok ==> Walk(src, from, expanded + {pair.0}, Sources(work)) && Paired(from, to, work)
    ensures ok ==> Sent(src, from, expanded + {pair.0}, d)
    ensures !ok ==> Obstructed(src, from, base, to)
    ensures pair.0 in DirsOf(src) - expanded
  {
    ghost var before := Sources(rest) + [pair.0];
    assert before[|rest|] == pair.0 && pair.0 in before;
    OnePair(from, to, pair);
    TakenFrom(src, from, expanded, before, pair.0);
    ListedNames(src, listing, pair.0);
    work, log := rest, copied;
    var dirs, files;
    ok, now, dirs, files, d := ScanAndMake(src, from, base, to, done, out, copied, pair, listing(pair.0));
    if !ok {
      return;
    }
    SentFiles(src, listing, from, expanded, done, pair.0, dirs, files, d);
    work := rest + dirs;
    PairsConcat(from, to, rest, dirs);
    WorkNext(src, listing, from, to, expanded, rest, pair, dirs);
    ok, now, log, d := CopyFiles(src, from, base, to, d, now, copied, files, sizes);
    if ok {
      SentNext(src, listing, from, expanded, done, pair.0, d);
    }
  }

  lemma SendStart(src: Files, from: Path, base: Files, dst: Files, to: Path)
    requires DirIn(src, from, from) && RemoteRoot(base, dst, to)
    ensures Walk(src, from, {}, [from]) && Paired(from, to, [(from, to)]) && Sources([(from, to)]) == [from]
    ensures Sent(src, from, {}, {from}) && CopyState(src, from, base, to, {from}, base, [])
  {
    ImageOrigin(from, to, from);
    OnePair(from, to, (from, to));
    assert Lookup(base, to) == Some(Dir);
    assert Copied(src, from, base, to, {}, base);
    CopiedNext(src, from, base, to, {}, base, from, base);
    assert {} + {from} == {from};
  }

  lemma SendEnd(src: Files, from: Path, base: Files, dst: Files, to: Path, expanded: set<Path>, done: set<Path>,
                out: Files, copied: seq<Path>)
    requires WellFormed(src) && IsDir(src, from) && Walk(src, from, expanded, []) && RemoteRoot(base, dst, to)
    requires Sent(src, from, expanded, done) && CopyState(src, from, base, to, done, out, copied)
    ensures !Obstructed(src, from, dst, to)
    ensures forall p :: Lookup(out, p) == Overlaid(src, from, dst, to, p)
    ensures forall s :: s in copied <==> InTree(src, from, s) && src[s].File?
  {
    forall s | InTree(src, from, s) ensures s in done {
      WalkEnd(src, from, expanded, s);
    }
    CompleteCopy(src, from, base, to, done, out);
    RemoteRootLookup(src, from, base, dst, to);
    assert !Obstructed(src, from, base, to);
  }

  /** The same for uploads, which make each directory when they list its parent and need the parent of
      the remote root to exist. */
  method UploadTree(src: Files, listing: Path -> seq<string>, from: Path, dst: Files, to: Path, sizes: nat -> nat)
    returns (ok: bool, out: Files, copied: seq<Path>)
    requires WellFormed(src) && IsDir(src, from) && Lists(src, listing)
    requires forall d :: IsDir(src, d) ==> forall n <- listing(d) :: !IsDots(n)
    ensures ok <==> UploadPossible(src, from, dst, to)
    ensures ok ==> forall p :: Lookup(out, p) == Overlaid(src, from, dst, to, p)
    ensures PartUpload(src, from, dst, to, out)
    ensures NoRepeat(copied) && forall s <- copied :: InTree(src, from, s) && src[s].File?
    ensures ok ==> forall s :: InTree(src, from, s) && src[s].File? ==> s in copied
  {
    copied := [];
    var root := EnsureDir(dst, to);
    if root.None? {
      return false, dst, [];
    }
    out := root.value;
    ghost var base := out;
    var work: seq<Pair> := [(from, to)];
    ghost var expanded: set<Path>, done: set<Path> := {}, {from};
    SendStart(src, from, base, dst, to);
    while work != []
      invariant Walk(src, from, expanded, Sources(work)) && Paired(from, to, work)
      invariant Sent(src, from, expanded, done) && CopyState(src, from, base, to, done, out, copied)
      decreases DirsOf(src) - expanded
    {
      var rest, pair := work[..|work| - 1], work[|work| - 1];
      LastSplit(work);
      PairsConcat(from, to, rest, [pair]);
      OnePair(from, to, pair);
      assert IsDir(src, pair.0) by {
        assert Sources(work)[|work| - 1] == pair.0 && pair.0 in Sources(work);
      }
      ghost var d;
      ok, out, copied, work, d := SendDir(src, listing, from, base, to, expanded, done, rest, pair, out, copied, sizes);
      if !ok {
        RemoteRootLookup(src, from, base, dst, to);
        PartialUpload(src, from, base, dst, to, d, out);
        return;
      }
      expanded, done := expanded + {pair.0}, d;
    }
    assert Sources(work) == [];
    SendEnd(src, from, base, dst, to, expanded, done, out, copied);
    PartialUpload(src, from, base, dst, to, done, out);
    ok := true;
  }
}
