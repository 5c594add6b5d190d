/** The client's side of a push: which paths belong to a closure, which objects a path has,
    and which closures a size limit drops. */
module ClientClosure {
  import opened Wrappers
  import opened Arithmetic
  import opened Reachability
  import opened Text
  import NixBase32
  import GcService
  import GcState
  import GcSteps
  import GcTheorems

  const StoreHashLength: nat := 32

  datatype PathInfo = PathInfo(narHash: string, narSize: nat, references: seq<string>, deriver: string)

  /** What the client finds out elsewhere: a NAR hash in Nix's base 32, whether a derivation
      has a build log, and the output path of each realisation. */
  datatype Env = Env(nar32: string -> Option<string>, hasLog: string -> bool, realisations: map<string, string>)

  datatype Object = Object(key: string, refs: set<string>)

  datatype ClosureInfo = ClosureInfo(narinfoKey: string, objects: seq<Object>)

  type Infos = map<string, PathInfo>

  /** The references the walk follows; a path without info has none. */
  function Graph(infos: Infos): map<string, set<string>> {
    map p | p in infos :: Elements(infos[p].references)
  }

  // ---- computeClosureMembership ----

  class Walk {
    var reachable: set<string>

    constructor ()
      ensures reachable == {}
    {
      reachable := {};
    }

    /** Depth first; a path that was met before is not entered again. */
    method Visit(path: string, infos: Infos, ghost g: map<string, set<string>>, ghost all: set<string>)
      requires g == Graph(infos) && Closed(g, all) && path in all && reachable <= all
      modifies this
      ensures old(reachable) + {path} <= reachable <= all
      ensures Entered(g, old(reachable), reachable)
      decreases |all - reachable|
    {
      hide Graph, Entered, Closed;
      if path in reachable {
        NothingEntered(g, reachable);
        return;
      }
      Smaller(all - (reachable + {path}), all - reachable, path);
      reachable := reachable + {path};
      NothingEntered(g, reachable);
      if path !in infos {
        NoInfo(infos, path, g, reachable - {path}, reachable);
        return;
      }
      var refs := infos[path].references;
      for i := 0 to |refs|
        invariant old(reachable) + {path} <= reachable <= all
        invariant Entered(g, old(reachable) + {path}, reachable)
        invariant forall j :: 0 <= j < i ==> refs[j] in reachable
      {
        RefIsThere(infos, path, g, all, i);
        SubsetIsNoLarger(all - reachable, all - (old(reachable) + {path}));
        ghost var before := reachable;
        Visit(refs[i], infos, g, all);
        EnteredMore(g, old(reachable) + {path}, before, reachable);
      }
      AllRefsEntered(infos, path, g, old(reachable), reachable);
    }
  }

  /** The references of everything met since `before` have been met. */
  ghost predicate Entered(g: map<string, set<string>>, before: set<string>, now: set<string>) {
    forall p :: p in now && p !in before ==> Refs(g, p) <= now
  }

  lemma NothingEntered(g: map<string, set<string>>, now: set<string>)
    ensures Entered(g, now, now)
  {
  }

  lemma NoInfo(infos: Infos, path: string, g: map<string, set<string>>, before: set<string>, now: set<string>)
    requires g == Graph(infos) && path !in infos && Entered(g, now, now) && now == before + {path}
    ensures Entered(g, before, now)
  {
  }

  lemma RefIsThere(infos: Infos, path: string, g: map<string, set<string>>, all: set<string>, i: nat)
    requires g == Graph(infos) && Closed(g, all) && path in all && path in infos && i < |infos[path].references|
    ensures infos[path].references[i] in all
  {
    assert infos[path].references[i] in Refs(g, path);
  }

  lemma EnteredMore(g: map<string, set<string>>, start: set<string>, before: set<string>, now: set<string>)
    requires Entered(g, start, before) && Entered(g, before, now) && before <= now
    ensures Entered(g, start, now)
  {
  }

  lemma AllRefsEntered(infos: Infos, path: string, g: map<string, set<string>>, before: set<string>, now: set<string>)
    requires g == Graph(infos) && path in infos && path in now && Entered(g, before + {path}, now)
    requires forall j :: 0 <= j < |infos[path].references| ==> infos[path].references[j] in now
    ensures Entered(g, before, now)
  {
  }

  lemma Smaller<T>(a: set<T>, b: set<T>, x: T)
    requires a <= b && x in b && x !in a
    ensures |a| < |b|
  {
    SubsetIsNoLarger(a, b - {x});
  }

  /** For each top-level path exactly what it reaches, cycles or not. */
  method ComputeClosureMembership(tops: seq<string>, infos: Infos) returns (members: map<string, set<string>>)
    ensures members.Keys == Elements(tops)
    ensures forall t :: t in tops ==> members[t] == Reach(Graph(infos), {t})
  {
    members := map[];
    for i := 0 to |tops|
      invariant members.Keys == Elements(tops[..i])
      invariant forall t :: t in members ==> members[t] == Reach(Graph(infos), {t})
    {
      var walk := new Walk();
      ReachIsClosed(Graph(infos), {tops[i]});
      walk.Visit(tops[i], infos, Graph(infos), Reach(Graph(infos), {tops[i]}));
      ReachIsLeast(Graph(infos), {tops[i]}, walk.reachable);
      members := members[tops[i] := walk.reachable];
      assert Elements(tops[..i + 1]) == Elements(tops[..i]) + {tops[i]};
    }
    assert tops[..|tops|] == tops;
  }

  // ---- the objects of a path ----

  function TrimSlashes(s: string): string {
    if s != "" && s[|s| - 1] == '/' then TrimSlashes(s[..|s| - 1]) else s
  }

  /** filepath.Base. */
  function Base(path: string): string {
    if path == "" then "." else if TrimSlashes(path) == "" then "/" else AfterLastSlash(TrimSlashes(path))
  }

  function StorePathHash(path: string): Option<string> {
    match Cut(Base(path), "-")
    case None => None
    case Some((hash, _)) =>
      if |hash| == StoreHashLength && forall i :: 0 <= i < |hash| ==> hash[i] in NixBase32.Alphabet
      then Some(hash) else None
  }

  /** The path in parts: a directory, the hash, a dash, a name, and perhaps slashes. */
  ghost predicate IsSplit(path: string, dir: string, hash: string, name: string, slashes: string) {
    && path == dir + hash + "-" + name + slashes
    && (dir == "" || dir[|dir| - 1] == '/') && '/' !in name
    && forall i :: 0 <= i < |slashes| ==> slashes[i] == '/'
  }

  /** Nix's hash of a store path: 32 digits, written out. */
  predicate IsHash(hash: string) {
    |hash| == 32 && forall i :: 0 <= i < 32 ==> hash[i] in "0123456789abcdfghijklmnpqrsvwxyz"
  }

  lemma {:induction false} TrimmedIs(s: string) returns (slashes: string)
    ensures s == TrimSlashes(s) + slashes && forall i :: 0 <= i < |slashes| ==> slashes[i] == '/'
    ensures TrimSlashes(s) != "" ==> TrimSlashes(s)[|TrimSlashes(s)| - 1] != '/'
  {
    if s != "" && s[|s| - 1] == '/' {
      var less := TrimmedIs(s[..|s| - 1]);
      slashes := less + "/";
    } else {
      slashes := "";
    }
  }

  lemma {:induction false} TrimSlashesOf(s: string, slashes: string)
    requires s != "" && s[|s| - 1] != '/' && forall i :: 0 <= i < |slashes| ==> slashes[i] == '/'
    ensures TrimSlashes(s + slashes) == s
  {
    if slashes == "" {
      assert s + slashes == s;
    } else {
      assert (s + slashes)[..|s + slashes| - 1] == s + slashes[..|slashes| - 1];
      TrimSlashesOf(s, slashes[..|slashes| - 1]);
    }
  }

  lemma {:induction false} AfterSlashIs(s: string) returns (dir: string)
    ensures s == dir + AfterLastSlash(s) && (dir == "" || dir[|dir| - 1] == '/') && '/' !in AfterLastSlash(s)
  {
    if s == "" || s[|s| - 1] == '/' {
      dir := s;
    } else {
      dir := AfterSlashIs(s[..|s| - 1]);
    }
  }

  lemma {:induction false} AfterSlashOf(dir: string, base: string)
    requires (dir == "" || dir[|dir| - 1] == '/') && '/' !in base
    ensures AfterLastSlash(dir + base) == base
  {
    if base == "" {
      assert dir + base == dir;
    } else {
      assert base[|base| - 1] in base;
      assert (dir + base)[..|dir + base| - 1] == dir + base[..|base| - 1];
      AfterSlashOf(dir, base[..|base| - 1]);
    }
  }

  lemma SplitHasHash(path: string, dir: string, hash: string, name: string, slashes: string)
    requires IsSplit(path, dir, hash, name, slashes) && IsHash(hash)
    ensures StorePathHash(path) == Some(hash)
    ensures TrimSlashes(path) == dir + hash + "-" + name && AfterLastSlash(dir + hash + "-" + name) == hash + "-" + name
    ensures Cut(hash + "-" + name, "-") == Some((hash, name))
  {
    var base := hash + "-" + name;
    HashChars(hash);
    assert dir + hash + "-" + name == dir + base;
    assert (dir + base)[|dir + base| - 1] == base[|base| - 1] && base[|base| - 1] in base;
    TrimSlashesOf(dir + base, slashes);
    AfterSlashOf(dir, base);
    CutAtFirst(hash, "-", name);
  }

  lemma HashChars(hash: string)
    requires IsHash(hash)
    ensures '/' !in hash && '-' !in hash && forall i :: 0 <= i < |hash| ==> hash[i] in NixBase32.Alphabet
  {
    assert '/' !in NixBase32.Alphabet && '-' !in NixBase32.Alphabet;
    assert forall i :: 0 <= i < |hash| ==> hash[i] in NixBase32.Alphabet;
  }

  lemma BaseIsPart(path: string) returns (dir: string, slashes: string)
    requires Base(path) != "." && Base(path) != "/"
    ensures path == dir + Base(path) + slashes && (dir == "" || dir[|dir| - 1] == '/') && '/' !in Base(path)
    ensures forall i :: 0 <= i < |slashes| ==> slashes[i] == '/'
  {
    slashes := TrimmedIs(path);
    dir := AfterSlashIs(TrimSlashes(path));
  }

  lemma PartsAreSplit(path: string, dir: string, hash: string, name: string, slashes: string)
    requires path == dir + (hash + "-" + name) + slashes && '/' !in hash + "-" + name
    requires (dir == "" || dir[|dir| - 1] == '/') && forall i :: 0 <= i < |slashes| ==> slashes[i] == '/'
    ensures IsSplit(path, dir, hash, name, slashes)
  {
    var base := hash + "-" + name;
    assert forall i :: 0 <= i < |name| ==> name[i] == base[|hash| + 1 + i];
    assert dir + base + slashes == dir + hash + "-" + name + slashes;
  }

  lemma HashedParts(base: string, hash: string) returns (name: string)
    requires match Cut(base, "-") case None => false case Some((h, _)) => h == hash
    ensures base == hash + "-" + name && base != "." && base != "/"
  {
    NoDash();
    CutGivesParts(base, "-");
    name := Cut(base, "-").value.1;
  }

  lemma HashIsCut(path: string, hash: string)
    requires StorePathHash(path) == Some(hash)
    ensures IsHash(hash) && match Cut(Base(path), "-") case None => false case Some((h, _)) => h == hash
  {
    hide Base, Cut;
  }

  lemma HashIsSplit(path: string, hash: string)
    requires StorePathHash(path) == Some(hash)
    ensures IsHash(hash) && exists dir, name, slashes :: IsSplit(path, dir, hash, name, slashes)
  {
    hide Base, Cut, StorePathHash, IsHash, IsSplit;
    HashIsCut(path, hash);
    var name := HashedParts(Base(path), hash);
    var dir, slashes := BaseIsPart(path);
    PartsAreSplit(path, dir, hash, name, slashes);
  }

  /** A path has a hash exactly if its last element starts with 32 digits and a dash. */
  lemma StorePathHashIff(path: string, hash: string)
    ensures StorePathHash(path) == Some(hash)
      <==> IsHash(hash) && exists dir, name, slashes :: IsSplit(path, dir, hash, name, slashes)
  {
    hide StorePathHash, IsHash, IsSplit;
    if StorePathHash(path) == Some(hash) { HashIsSplit(path, hash); }
    if IsHash(hash) && exists dir, name, slashes :: IsSplit(path, dir, hash, name, slashes) {
      var dir, name, slashes :| IsSplit(path, dir, hash, name, slashes);
      SplitHasHash(path, dir, hash, name, slashes);
    }
  }

  lemma NoDash()
    ensures Cut(".", "-") == None && Cut("/", "-") == None && Cut("", "-") == None
  {
    CutNone(".", "-");
    CutNone("/", "-");
    CutNone("", "-");
  }

  /** The store paths Nix builds have a hash: the digits of 20 bytes. */
  lemma DigestIsHash(digest: seq<NixBase32.Byte>, name: string)
    requires |digest| == 20 && '/' !in name
    ensures StorePathHash("/nix/store/" + NixBase32.Encoded(digest) + "-" + name) == Some(NixBase32.Encoded(digest))
  {
    var hash := NixBase32.Encoded(digest);
    NixBase32.EncodedDigits(digest);
    assert |hash| == 32;
    assert forall i :: 0 <= i < 32 ==> hash[i] in NixBase32.Alphabet;
    var path := "/nix/store/" + hash + "-" + name;
    assert path == path + "";
    assert IsSplit(path, "/nix/store/", hash, name, "");
    StorePathHashIff(path, hash);
  }

  lemma PinKeyOf(path: string, hash: string, name: string)
    requires Cut(AfterLastSlash(path), "-") == (if AfterLastSlash(path) == "" then None else Some((hash, name)))
    requires hash != ""
    ensures GcService.NarinfoKey(path) == if AfterLastSlash(path) == "" then None else Some(hash + ".narinfo")
  {
    if AfterLastSlash(path) == "" {
      assert GcService.NarinfoKey(path) == None;
    } else {
      assert Cut(AfterLastSlash(path), "-") == Some((hash, name));
      assert GcService.NarinfoKey(path).Some?;
      assert GcService.NarinfoKey(path) == Some(hash + ".narinfo");
    }
  }

  /** The key a pin request asks for is the narinfo key the client published, exactly if the
      path does not end in a slash: the server does not trim them. */
  lemma PinFindsNarinfo(path: string, hash: string)
    requires StorePathHash(path) == Some(hash)
    ensures path != ""
    ensures GcService.NarinfoKey(path) == if path[|path| - 1] == '/' then None else Some(hash + ".narinfo")
  {
    StorePathHashIff(path, hash);
    var dir, name, slashes :| IsSplit(path, dir, hash, name, slashes);
    SplitHasHash(path, dir, hash, name, slashes);
    hide StorePathHash;
    assert slashes != "" ==> path[|path| - 1] == slashes[|slashes| - 1];
    if path[|path| - 1] == '/' {
      NoDash();
      assert AfterLastSlash(path) == "";
    } else {
      assert path == dir + hash + "-" + name;
    }
    PinKeyOf(path, hash, name);
  }

  function NarinfoKey(hash: string): string { hash + ".narinfo" }

  function ListingKey(hash: string): string { hash + ".ls" }

  function NarKey(nar32: string): string { "nar/" + nar32 + ".nar.zst" }

  function LogKey(deriver: string): string { "log/" + Base(deriver) }

  function RealisationKey(id: string): string { "realisations/" + id + ".doi" }

  function RealisationKeys(env: Env, path: string): set<string> {
    set id | id in env.realisations && env.realisations[id] == path :: RealisationKey(id)
  }

  /** Nothing if some reference is not a store path. */
  function RefKeys(refs: seq<string>): Option<set<string>> {
    if refs == [] then Some({})
    else match RefKeys(refs[..|refs| - 1])
      case None => None
      case Some(keys) =>
        match StorePathHash(refs[|refs| - 1]) case None => None case Some(h) => Some(keys + {NarinfoKey(h)})
  }

  predicate HasLog(env: Env, info: PathInfo) {
    info.deriver != "" && env.hasLog(info.deriver)
  }

  /** Narinfo, NAR, listing, build log if there is one, realisations. */
  function ObjectsOf(env: Env, path: string, info: PathInfo): Option<set<Object>> {
    var hash, refs, nar32 := StorePathHash(path), RefKeys(info.references), env.nar32(info.narHash);
    if hash.None? || refs.None? || nar32.None? then None
    else
      var realisations := RealisationKeys(env, path);
      Some({Object(NarinfoKey(hash.value), refs.value + {NarKey(nar32.value), ListingKey(hash.value)} + realisations),
            Object(NarKey(nar32.value), {}), Object(ListingKey(hash.value), {})}
           + (if HasLog(env, info) then {Object(LogKey(info.deriver), {})} else {})
           + set k | k in realisations :: Object(k, {}))
  }

  /** o is an object of one of the paths. */
  ghost predicate Owned(env: Env, infos: Infos, paths: set<string>, o: Object) {
    exists p :: p in paths && p in infos && ObjectsOf(env, p, infos[p]).Some? && o in ObjectsOf(env, p, infos[p]).value
  }

  /** Every object of every path with info that the top-level path reaches. */
  ghost predicate ObjectsAre(env: Env, infos: Infos, top: string, objects: set<Object>) {
    forall o :: o in objects <==> Owned(env, infos, Reach(Graph(infos), {top}), o)
  }

  ghost predicate Describable(env: Env, infos: Infos) {
    forall p :: p in infos ==> ObjectsOf(env, p, infos[p]).Some?
  }

  method CollectObjects(env: Env, path: string, info: PathInfo) returns (r: Option<seq<Object>>)
    ensures r.Some? <==> ObjectsOf(env, path, info).Some?
    ensures r.Some? ==> Elements(r.value) == ObjectsOf(env, path, info).value
  {
    hide StorePathHash;
    var hash := StorePathHash(path);
    if hash.None? {
      return None;
    }
    var references := {};
    for i := 0 to |info.references|
      invariant RefKeys(info.references[..i]) == Some(references)
    {
      var refHash := StorePathHash(info.references[i]);
      NextRef(info.references, i);
      if refHash.None? {
        NoRefKeys(info.references, i + 1);
        return None;
      }
      references := references + {NarinfoKey(refHash.value)};
    }
    assert info.references[..|info.references|] == info.references;
    var nar32 := env.nar32(info.narHash);
    if nar32.None? {
      return None;
    }
    var realisations := FindRealisations(env, path);
    var narinfoRefs := references + {NarKey(nar32.value), ListingKey(hash.value)} + realisations;
    var objects := [Object(NarinfoKey(hash.value), narinfoRefs), Object(NarKey(nar32.value), {}),
        Object(ListingKey(hash.value), {})];
    if info.deriver != "" && env.hasLog(info.deriver) {
      objects := objects + [Object(LogKey(info.deriver), {})];
    }
    ghost var fixed := objects;
    var rest := realisations;
    while rest != {}
      invariant rest <= realisations
      invariant Elements(objects) == Elements(fixed) + set k | k in realisations - rest :: Object(k, {})
    {
      var k :| k in rest;
      rest := rest - {k};
      MoreObjects(objects, k);
      assert (set x | x in realisations - rest :: Object(x, {}))
        == (set x | x in realisations - rest - {k} :: Object(x, {})) + {Object(k, {})};
      objects := objects + [Object(k, {})];
    }
    assert realisations - {} == realisations;
    r := Some(objects);
  }

  lemma NextRef(refs: seq<string>, i: nat)
    requires i < |refs|
    ensures RefKeys(refs[..i + 1]) ==
      match RefKeys(refs[..i])
      case None => None
      case Some(keys) => match StorePathHash(refs[i]) case None => None case Some(h) => Some(keys + {NarinfoKey(h)})
  {
    assert refs[..i + 1][..i] == refs[..i];
  }

  lemma {:induction false} NoRefKeys(refs: seq<string>, i: nat)
    requires i <= |refs| && RefKeys(refs[..i]).None?
    ensures RefKeys(refs).None?
    decreases |refs| - i
  {
    if i == |refs| {
      assert refs[..i] == refs;
    } else {
      NextRef(refs, i);
      NoRefKeys(refs, i + 1);
    }
  }

  lemma MoreObjects(objects: seq<Object>, k: string)
    ensures Elements(objects + [Object(k, {})]) == Elements(objects) + {Object(k, {})}
  {
  }

  method FindRealisations(env: Env, path: string) returns (keys: set<string>)
    ensures keys == RealisationKeys(env, path)
  {
    keys := {};
    var rest := env.realisations.Keys;
    while rest != {}
      invariant rest <= env.realisations.Keys
      invariant keys == set id | id in env.realisations && id !in rest
        && env.realisations[id] == path :: RealisationKey(id)
    {
      var id :| id in rest;
      rest := rest - {id};
      if env.realisations[id] == path {
        keys := keys + {RealisationKey(id)};
      }
    }
  }

  // ---- PrepareClosures ----

  /** The keys that a narinfo refers to: the path's archive and listing, the narinfos of its
      references, and its realisations. */
  ghost predicate RefsAre(env: Env, path: string, info: PathInfo, hash: string, nar: string, refs: set<string>) {
    forall r :: r in refs <==>
      || r == "nar/" + nar + ".nar.zst" || r == hash + ".ls"
      || (exists q :: q in info.references && StorePathHash(q).Some? && r == StorePathHash(q).value + ".narinfo")
      || exists id :: id in env.realisations && env.realisations[id] == path && r == "realisations/" + id + ".doi"
  }

  /** All that a path adds to a closure is there. */
  ghost predicate Contributes(env: Env, path: string, info: PathInfo, objects: set<Object>) {
    && StorePathHash(path).Some? && env.nar32(info.narHash).Some?
    && var hash, nar := StorePathHash(path).value, env.nar32(info.narHash).value;
    && (exists refs :: Object(hash + ".narinfo", refs) in objects && RefsAre(env, path, info, hash, nar, refs))
    && Object("nar/" + nar + ".nar.zst", {}) in objects && Object(hash + ".ls", {}) in objects
    && (info.deriver != "" && env.hasLog(info.deriver) ==> Object("log/" + Base(info.deriver), {}) in objects)
    && forall id :: id in env.realisations && env.realisations[id] == path ==>
         Object("realisations/" + id + ".doi", {}) in objects
  }

  /** The object is one of those a path adds. */
  ghost predicate ComesFrom(env: Env, path: string, info: PathInfo, o: Object) {
    && StorePathHash(path).Some? && env.nar32(info.narHash).Some?
    && var hash, nar := StorePathHash(path).value, env.nar32(info.narHash).value;
    || (o.key == hash + ".narinfo" && RefsAre(env, path, info, hash, nar, o.refs))
    || (&& o.refs == {}
        && (|| o.key == "nar/" + nar + ".nar.zst" || o.key == hash + ".ls"
            || (info.deriver != "" && env.hasLog(info.deriver) && o.key == "log/" + Base(info.deriver))
            || exists id :: id in env.realisations && env.realisations[id] == path
                 && o.key == "realisations/" + id + ".doi"))
  }

  /** What every path with info that is reached adds, and nothing else. */
  ghost predicate ListsExactly(env: Env, infos: Infos, reached: set<string>, objects: set<Object>) {
    && (forall p :: p in reached && p in infos ==> Contributes(env, p, infos[p], objects))
    && forall o :: o in objects ==> exists p :: p in reached && p in infos && ComesFrom(env, p, infos[p], o)
  }

  /** The prepared closures key by key. */
  ghost predicate Spelled(env: Env, infos: Infos, tops: seq<string>, closures: seq<ClosureInfo>) {
    && |closures| == |tops|
    && forall i :: 0 <= i < |tops| ==>
         && StorePathHash(tops[i]).Some? && closures[i].narinfoKey == StorePathHash(tops[i]).value + ".narinfo"
         && ListsExactly(env, infos, Reach(Graph(infos), {tops[i]}), Elements(closures[i].objects))
  }

  lemma OwnRefsAre(env: Env, path: string, info: PathInfo)
    requires ObjectsOf(env, path, info).Some?
    ensures StorePathHash(path).Some? && env.nar32(info.narHash).Some?
    ensures RefsAre(env, path, info, StorePathHash(path).value, env.nar32(info.narHash).value,
                    NarinfoObject(env, path, info).refs)
  {
    hide StorePathHash;
    RefKeysAre(info.references);
    var refs := NarinfoObject(env, path, info).refs;
    forall q | q in info.references && StorePathHash(q).Some? ensures StorePathHash(q).value + ".narinfo" in refs {
      assert NarinfoKey(StorePathHash(q).value) in RefKeys(info.references).value;
    }
    forall id | id in env.realisations && env.realisations[id] == path ensures "realisations/" + id + ".doi" in refs {
      assert RealisationKey(id) in RealisationKeys(env, path);
    }
  }

  lemma OwnComesFrom(env: Env, path: string, info: PathInfo, o: Object)
    requires ObjectsOf(env, path, info).Some? && o in ObjectsOf(env, path, info).value
    ensures ComesFrom(env, path, info, o)
  {
    hide StorePathHash, RefsAre;
    OwnRefsAre(env, path, info);
  }

  lemma OwnIsContributed(env: Env, path: string, info: PathInfo, objects: set<Object>)
    requires ObjectsOf(env, path, info).Some? && ObjectsOf(env, path, info).value <= objects
    ensures Contributes(env, path, info, objects)
  {
    hide StorePathHash, RefsAre, Base;
    OwnRefsAre(env, path, info);
    assert NarinfoObject(env, path, info) in objects;
    forall id | id in env.realisations && env.realisations[id] == path
      ensures Object("realisations/" + id + ".doi", {}) in objects
    {
      assert RealisationKey(id) in RealisationKeys(env, path);
      assert Object(RealisationKey(id), {}) in ObjectsOf(env, path, info).value;
    }
  }

  lemma PreparedAreSpelled(env: Env, infos: Infos, tops: seq<string>, closures: seq<ClosureInfo>)
    requires Describable(env, infos) && Prepared(env, infos, tops, closures)
    ensures Spelled(env, infos, tops, closures)
  {
    hide StorePathHash, ObjectsOf, Graph, Reach, Contributes, ComesFrom;
    forall i | 0 <= i < |tops|
      ensures ListsExactly(env, infos, Reach(Graph(infos), {tops[i]}), Elements(closures[i].objects))
    {
      var reached, objects := Reach(Graph(infos), {tops[i]}), Elements(closures[i].objects);
      forall p | p in reached && p in infos ensures Contributes(env, p, infos[p], objects) {
        forall o | o in ObjectsOf(env, p, infos[p]).value ensures o in objects {
          assert Owned(env, infos, reached, o);
        }
        OwnIsContributed(env, p, infos[p], objects);
      }
      forall o | o in objects ensures exists p :: p in reached && p in infos && ComesFrom(env, p, infos[p], o) {
        assert Owned(env, infos, reached, o);
        var p :| p in reached && p in infos && ObjectsOf(env, p, infos[p]).Some?
          && o in ObjectsOf(env, p, infos[p]).value;
        OwnComesFrom(env, p, infos[p], o);
      }
    }
  }

  lemma EndsAre(a: string, b: string, end: string)
    ensures a + end == b + end <==> a == b
  {
    if a + end == b + end {
      assert |a| == |b|;
      assert (a + end)[..|a|] == a && (b + end)[..|b|] == b;
    }
  }

  lemma StartsAre(a: string, b: string, start: string)
    ensures start + a == start + b <==> a == b
  {
    if start + a == start + b {
      assert (start + a)[|start|..] == a && (start + b)[|start|..] == b;
    }
  }

  /** The archive a narinfo refers to is told by its place, and only by the path's NAR hash. */
  lemma ArchiveRefIs(env: Env, path: string, info: PathInfo, hash: string, nar: string, refs: set<string>, r: string)
    requires RefsAre(env, path, info, hash, nar, refs) && r in refs && StorePathHash(path) == Some(hash)
    ensures HasPrefix(r, "nar/") <==> r == "nar/" + nar + ".nar.zst"
    ensures HasSuffix(r, ".ls") <==> r == hash + ".ls"
  {
    hide StorePathHash;
    HashHasNoSlash(path);
    if q :| q in info.references && StorePathHash(q).Some? && r == StorePathHash(q).value + ".narinfo" {
      HashHasNoSlash(q);
      assert r[3] == StorePathHash(q).value[3] && r[|r| - 1] == 'o';
    } else if id :| id in env.realisations && env.realisations[id] == path && r == "realisations/" + id + ".doi" {
      assert r[0] == 'r' && r[|r| - 1] == 'i';
    } else if r == "nar/" + nar + ".nar.zst" {
      assert r[..4] == "nar/" && r[|r| - 1] == 't';
    } else {
      assert r[3] == hash[3] && r[|hash|..] == ".ls";
    }
  }

  lemma HashHasNoSlash(path: string)
    requires StorePathHash(path).Some?
    ensures |StorePathHash(path).value| == 32 && '/' !in StorePathHash(path).value
  {
    hide Base;
    assert '/' !in NixBase32.Alphabet;
  }

  /** Two paths share an archive exactly if their NAR hashes agree, and a listing exactly if
      their store path hashes do. */
  lemma KeysAgreeIff(env: Env, p: string, info: PathInfo, refs: set<string>, r: string,
                     q: string, other: PathInfo, more: set<string>, s: string)
    requires StorePathHash(p).Some? && env.nar32(info.narHash).Some?
    requires StorePathHash(q).Some? && env.nar32(other.narHash).Some?
    requires RefsAre(env, p, info, StorePathHash(p).value, env.nar32(info.narHash).value, refs) && r in refs
    requires RefsAre(env, q, other, StorePathHash(q).value, env.nar32(other.narHash).value, more) && s in more
    ensures HasPrefix(r, "nar/") && HasPrefix(s, "nar/") ==>
      (r == s <==> env.nar32(info.narHash) == env.nar32(other.narHash))
    ensures HasSuffix(r, ".ls") && HasSuffix(s, ".ls") ==> (r == s <==> StorePathHash(p) == StorePathHash(q))
  {
    hide StorePathHash, RefsAre;
    var a, b := env.nar32(info.narHash).value, env.nar32(other.narHash).value;
    ArchiveRefIs(env, p, info, StorePathHash(p).value, a, refs, r);
    ArchiveRefIs(env, q, other, StorePathHash(q).value, b, more, s);
    EndsAre("nar/" + a, "nar/" + b, ".nar.zst");
    StartsAre(a, b, "nar/");
    EndsAre(StorePathHash(p).value, StorePathHash(q).value, ".ls");
  }

  /** One closure a top-level path, named by its narinfo key, with the objects of what it reaches. */
  ghost predicate Prepared(env: Env, infos: Infos, tops: seq<string>, closures: seq<ClosureInfo>) {
    && |closures| == |tops|
    && forall i :: 0 <= i < |tops| ==>
         && StorePathHash(tops[i]).Some? && closures[i].narinfoKey == NarinfoKey(StorePathHash(tops[i]).value)
         && ObjectsAre(env, infos, tops[i], Elements(closures[i].objects))
  }

  method PrepareClosures(env: Env, tops: seq<string>, infos: Infos) returns (r: Option<seq<ClosureInfo>>)
    ensures r.Some? <==> Describable(env, infos) && forall t :: t in tops ==> StorePathHash(t).Some?
    ensures r.Some? ==> Prepared(env, infos, tops, r.value) && Spelled(env, infos, tops, r.value)
  {
    hide StorePathHash, ObjectsOf, Graph, Spelled;
    var all: map<string, seq<Object>> := map[];
    var rest := infos.Keys;
    while rest != {}
      invariant rest <= infos.Keys && all.Keys == infos.Keys - rest
      invariant AllCollected(env, infos, all)
    {
      var p :| p in rest;
      var objects := CollectObjects(env, p, infos[p]);
      if objects.None? {
        return None;
      }
      all := all[p := objects.value];
      rest := rest - {p};
    }
    assert all.Keys == infos.Keys;
    var members := ComputeClosureMembership(tops, infos);
    var closures: seq<ClosureInfo> := [];
    for i := 0 to |tops|
      invariant Prepared(env, infos, tops[..i], closures)
    {
      var hash := StorePathHash(tops[i]);
      if hash.None? {
        assert tops[i] in tops;
        return None;
      }
      var objects := Gather(env, infos, all, members[tops[i]]);
      GatheredAre(env, infos, tops[i], all, objects);
      closures := closures + [ClosureInfo(NarinfoKey(hash.value), objects)];
    }
    assert tops[..|tops|] == tops;
    PreparedAreSpelled(env, infos, tops, closures);
    r := Some(closures);
  }

  ghost predicate AllCollected(env: Env, infos: Infos, all: map<string, seq<Object>>) {
    forall p :: p in all ==>
      p in infos && ObjectsOf(env, p, infos[p]).Some? && Elements(all[p]) == ObjectsOf(env, p, infos[p]).value
  }

  /** o belongs to a path in the set. */
  ghost predicate OfSome(all: map<string, seq<Object>>, paths: set<string>, o: Object) {
    exists p :: p in paths && p in all && o in all[p]
  }

  method Gather(env: Env, infos: Infos, all: map<string, seq<Object>>, reachable: set<string>)
    returns (objects: seq<Object>)
    ensures forall o :: o in objects <==> OfSome(all, reachable, o)
  {
    objects := [];
    var rest := all.Keys;
    while rest != {}
      invariant rest <= all.Keys
      invariant forall o :: o in objects <==> OfSome(all, reachable - rest, o)
    {
      var p :| p in rest;
      GatherOne(all, reachable, rest, p);
      if p in reachable {
        objects := objects + all[p];
      }
      rest := rest - {p};
    }
    assert reachable - {} == reachable;
  }

  lemma GatherOne(all: map<string, seq<Object>>, reachable: set<string>, rest: set<string>, p: string)
    requires p in rest && rest <= all.Keys
    ensures forall o ::
      OfSome(all, reachable - (rest - {p}), o) <==> OfSome(all, reachable - rest, o) || (p in reachable && o in all[p])
  {
    forall o ensures OfSome(all, reachable - (rest - {p}), o)
      <==> OfSome(all, reachable - rest, o) || (p in reachable && o in all[p]) {
      if OfSome(all, reachable - rest, o) {
        var q :| q in reachable - rest && q in all && o in all[q];
        assert q in reachable - (rest - {p});
      }
      if p in reachable && o in all[p] { assert p in reachable - (rest - {p}); }
      if OfSome(all, reachable - (rest - {p}), o) {
        var q :| q in reachable - (rest - {p}) && q in all && o in all[q];
        if q != p { assert q in reachable - rest; }
      }
    }
  }

  lemma GatheredAre(env: Env, infos: Infos, top: string, all: map<string, seq<Object>>, objects: seq<Object>)
    requires AllCollected(env, infos, all) && all.Keys == infos.Keys
    requires forall o :: o in objects <==> OfSome(all, Reach(Graph(infos), {top}), o)
    ensures ObjectsAre(env, infos, top, Elements(objects))
  {
    hide ObjectsOf, Graph, Reach;
    var reach := Reach(Graph(infos), {top});
    forall o ensures o in Elements(objects) <==> Owned(env, infos, reach, o) {
      if o in objects {
        var p :| p in reach && p in all && o in all[p];
        assert o in Elements(all[p]);
      }
      if Owned(env, infos, reach, o) {
        var p :| p in reach && p in infos && ObjectsOf(env, p, infos[p]).Some?
          && o in ObjectsOf(env, p, infos[p]).value;
        assert o in Elements(all[p]);
      }
    }
  }

  // ---- what the server is told ----

  /** The request's objects as a map: a key that occurs again replaces the earlier one. */
  function ListingOf(objects: seq<Object>): map<string, set<string>> {
    if objects == [] then map[]
      else ListingOf(objects[..|objects| - 1])[objects[|objects| - 1].key := objects[|objects| - 1].refs]
  }

  lemma {:induction false} ListingHolds(objects: seq<Object>)
    ensures forall o :: o in objects ==> o.key in ListingOf(objects)
    ensures forall k :: k in ListingOf(objects) ==> Object(k, ListingOf(objects)[k]) in objects
  {
    if objects != [] {
      var init, last := objects[..|objects| - 1], objects[|objects| - 1];
      ListingHolds(init);
      assert objects == init + [last];
    }
  }

  /** Every reference of a path with info has info too. */
  ghost predicate ReferenceClosed(infos: Infos) {
    forall p, r :: p in infos && r in infos[p].references ==> r in infos
  }

  /** Nix's promise: the hash identifies the store path. */
  ghost predicate HashesDiffer(infos: Infos) {
    forall p, q :: p in infos && q in infos && StorePathHash(p).Some? && StorePathHash(p) == StorePathHash(q) ==> p == q
  }

  lemma {:induction false} RefKeysAre(refs: seq<string>)
    requires RefKeys(refs).Some?
    ensures forall r :: r in refs ==>
      StorePathHash(r).Some? && NarinfoKey(StorePathHash(r).value) in RefKeys(refs).value
    ensures forall k :: k in RefKeys(refs).value ==>
      exists r :: r in refs && StorePathHash(r).Some? && k == NarinfoKey(StorePathHash(r).value)
  {
    hide StorePathHash;
    if refs != [] {
      var init, last := refs[..|refs| - 1], refs[|refs| - 1];
      RefKeysAre(init);
      assert refs == init + [last];
      forall k | k in RefKeys(refs).value
        ensures exists r :: r in refs && StorePathHash(r).Some? && k == NarinfoKey(StorePathHash(r).value) {
        if k in RefKeys(init).value {
          var r :| r in init && StorePathHash(r).Some? && k == NarinfoKey(StorePathHash(r).value);
          assert r in refs;
        }
      }
    }
  }

  /** The keys a path's own objects have, and where its narinfo's references lead. */
  lemma OwnObjects(env: Env, path: string, info: PathInfo, o: Object, r: string)
    requires ObjectsOf(env, path, info).Some? && o in ObjectsOf(env, path, info).value && r in o.refs
    ensures StorePathHash(path).Some? && o.key == NarinfoKey(StorePathHash(path).value)
    ensures (exists q :: q in info.references && StorePathHash(q).Some? && r == NarinfoKey(StorePathHash(q).value))
         || Object(r, {}) in ObjectsOf(env, path, info).value
  {
    hide StorePathHash;
    RefKeysAre(info.references);
  }

  lemma OwnNarinfo(env: Env, path: string, info: PathInfo)
    requires ObjectsOf(env, path, info).Some?
    ensures StorePathHash(path).Some?
    ensures exists o :: o in ObjectsOf(env, path, info).value && o.key == NarinfoKey(StorePathHash(path).value)
  {
    hide StorePathHash;
    var o := Object(NarinfoKey(StorePathHash(path).value),
                    RefKeys(info.references).value + {NarKey(env.nar32(info.narHash).value),
                        ListingKey(StorePathHash(path).value)} + RealisationKeys(env, path));
    assert o in ObjectsOf(env, path, info).value;
  }

  /** Some object of the list has the key. */
  predicate Keyed(objects: seq<Object>, key: string) {
    exists o :: o in objects && o.key == key
  }

  /** What an object of a reference-closed closure refers to is an object of that closure. */
  lemma RefsAreKeyed(env: Env, infos: Infos, top: string, objects: seq<Object>, o: Object, r: string)
    requires Describable(env, infos) && ReferenceClosed(infos) && ObjectsAre(env, infos, top, Elements(objects))
    requires o in objects && r in o.refs
    ensures Keyed(objects, r)
  {
    hide ObjectsOf, StorePathHash, Reach, Describable;
    var reach := Reach(Graph(infos), {top});
    ReachIsClosed(Graph(infos), {top});
    assert o in Elements(objects);
    var p :| p in reach && p in infos && ObjectsOf(env, p, infos[p]).Some? && o in ObjectsOf(env, p, infos[p]).value;
    OwnObjects(env, p, infos[p], o, r);
    if Object(r, {}) in ObjectsOf(env, p, infos[p]).value {
      assert Object(r, {}) in Elements(objects);
    } else {
      var q :| q in infos[p].references && StorePathHash(q).Some? && r == NarinfoKey(StorePathHash(q).value);
      assert q in Refs(Graph(infos), p);
      NarinfoKeyed(env, infos, top, q, objects);
    }
  }

  lemma NarinfoKeyed(env: Env, infos: Infos, top: string, p: string, objects: seq<Object>)
    requires Describable(env, infos) && ObjectsAre(env, infos, top, Elements(objects))
    requires p in Reach(Graph(infos), {top}) && p in infos
    ensures StorePathHash(p).Some? && Keyed(objects, NarinfoKey(StorePathHash(p).value))
  {
    hide ObjectsOf, StorePathHash, Reach, Graph;
    OwnNarinfo(env, p, infos[p]);
    var o :| o in ObjectsOf(env, p, infos[p]).value && o.key == NarinfoKey(StorePathHash(p).value);
    assert o in Elements(objects);
  }

  /** A reference-closed closure lists everything its objects refer to, and its root. */
  lemma ListingIsClosed(env: Env, infos: Infos, top: string, objects: seq<Object>)
    requires Describable(env, infos) && ReferenceClosed(infos) && top in infos
      && ObjectsAre(env, infos, top, Elements(objects))
    ensures GcTheorems.RefClosed(ListingOf(objects))
    ensures StorePathHash(top).Some? && NarinfoKey(StorePathHash(top).value) in ListingOf(objects)
  {
    hide StorePathHash, Reach, Describable, ObjectsAre, ReferenceClosed;
    var listing := ListingOf(objects);
    ListingHolds(objects);
    ReachIsClosed(Graph(infos), {top});
    NarinfoKeyed(env, infos, top, top, objects);
    forall k, r | k in listing && r in listing[k] ensures r in listing {
      RefsAreKeyed(env, infos, top, objects, Object(k, listing[k]), r);
    }
  }

  /** A pending closure meets what the protocol needs for a whole closure: as long as the
      closure row lasts, everything its listing leads to has a live row and its bytes. */
  lemma ClientClosureIsWhole(env: Env, infos: Infos, top: string, objects: seq<Object>,
                             states: seq<GcState.State>, steps: seq<GcSteps.Step>, i: nat, n: nat, path: seq<string>)
    requires Describable(env, infos) && ReferenceClosed(infos) && top in infos
      && ObjectsAre(env, infos, top, Elements(objects))
    requires StorePathHash(top).Some? && GcSteps.IsRun(states, steps) && i < n < |states|
    requires GcTheorems.Publishes(states[i], steps[i], NarinfoKey(StorePathHash(top).value), ListingOf(objects))
    requires forall j :: i < j <= n ==> NarinfoKey(StorePathHash(top).value) in states[j].closures
    requires IsPath(ListingOf(objects), path) && path[0] == NarinfoKey(StorePathHash(top).value)
    ensures GcState.Live(states[n].rows, path[|path| - 1]) && path[|path| - 1] in states[n].bucket
  {
    hide ObjectsOf, StorePathHash, Reach, Describable, ObjectsAre, ReferenceClosed;
    ListingIsClosed(env, infos, top, objects);
    GcTheorems.PublishedClosureIsWhole(states, steps, i, n, NarinfoKey(StorePathHash(top).value), ListingOf(objects),
        path);
  }

  // ---- one push for all closures ----

  function AllObjects(closures: seq<ClosureInfo>): seq<Object> {
    if closures == [] then [] else AllObjects(closures[..|closures| - 1]) + closures[|closures| - 1].objects
  }

  /** The narinfo keys of the closures, in order. */
  ghost predicate RootsAre(roots: seq<string>, closures: seq<ClosureInfo>) {
    |roots| == |closures| && forall i :: 0 <= i < |roots| ==> roots[i] == closures[i].narinfoKey
  }

  /** Every object once: the first with its key. */
  function FirstOfEach(objects: seq<Object>): seq<Object> {
    if objects == [] then []
    else
      var first := FirstOfEach(objects[..|objects| - 1]);
      if Keyed(first, objects[|objects| - 1].key) then first else first + [objects[|objects| - 1]]
  }

  /** The request of CreatePush: one root a closure, every object once. */
  method CreatePush(closures: seq<ClosureInfo>) returns (roots: seq<string>, objects: seq<Object>)
    ensures RootsAre(roots, closures)
    ensures objects == FirstOfEach(AllObjects(closures))
  {
    hide FirstOfEach, Keyed;
    roots, objects := [], [];
    NothingKeyed();
    var seen: set<string> := {};
    for i := 0 to |closures|
      invariant |roots| == i && forall j :: 0 <= j < i ==> roots[j] == closures[j].narinfoKey
      invariant objects == FirstOfEach(AllObjects(closures[..i]))
      invariant forall k :: k in seen <==> Keyed(objects, k)
    {
      roots := roots + [closures[i].narinfoKey];
      ghost var before := AllObjects(closures[..i]);
      var more := closures[i].objects;
      assert before + more[..0] == before;
      for j := 0 to |more|
        invariant objects == FirstOfEach(before + more[..j])
        invariant forall k :: k in seen <==> Keyed(objects, k)
      {
        FirstOfEachMore(before, more, j);
        if more[j].key !in seen {
          KeyedMore(objects, more[j]);
          seen, objects := seen + {more[j].key}, objects + [more[j]];
        }
      }
      assert more[..|more|] == more && closures[..i + 1][..i] == closures[..i];
    }
    assert closures[..|closures|] == closures;
  }

  lemma NothingKeyed()
    ensures FirstOfEach([]) == [] && forall k :: !Keyed([], k)
  {
  }

  lemma FirstOfEachMore(before: seq<Object>, more: seq<Object>, j: nat)
    requires j < |more|
    ensures var first := FirstOfEach(before + more[..j]);
            FirstOfEach(before + more[..j + 1]) == if Keyed(first, more[j].key) then first else first + [more[j]]
  {
    assert (before + more[..j + 1])[..|before| + j] == before + more[..j];
  }

  lemma KeyedMore(objects: seq<Object>, o: Object)
    ensures forall k :: Keyed(objects + [o], k) <==> Keyed(objects, k) || k == o.key
  {
    assert o in objects + [o];
    forall k | Keyed(objects, k) ensures Keyed(objects + [o], k) {
      var x :| x in objects && x.key == k;
      assert x in objects + [o];
    }
  }

  lemma {:induction false} FirstOfEachKeepsKeys(objects: seq<Object>)
    ensures forall o :: o in FirstOfEach(objects) ==> o in objects
    ensures forall o :: o in objects ==> Keyed(FirstOfEach(objects), o.key)
  {
    if objects != [] {
      var init, last := objects[..|objects| - 1], objects[|objects| - 1];
      FirstOfEachKeepsKeys(init);
      KeyedMore(FirstOfEach(init), last);
      assert objects == init + [last];
    }
  }

  lemma {:induction false} AllObjectsAre(closures: seq<ClosureInfo>)
    ensures forall o :: o in AllObjects(closures) <==> exists c :: c in closures && o in c.objects
  {
    if closures != [] {
      var init, last := closures[..|closures| - 1], closures[|closures| - 1];
      AllObjectsAre(init);
      assert closures == init + [last];
    }
  }

  /** The listing of CreatePush. */
  function Merged(closures: seq<ClosureInfo>): map<string, set<string>> {
    ListingOf(FirstOfEach(AllObjects(closures)))
  }

  /** Whatever is listed came with some closure. */
  lemma MergedIsOfSome(closures: seq<ClosureInfo>, k: string) returns (i: nat)
    requires k in Merged(closures)
    ensures i < |closures| && Object(k, Merged(closures)[k]) in closures[i].objects
  {
    hide FirstOfEach, AllObjects, ListingOf;
    ListingHolds(FirstOfEach(AllObjects(closures)));
    FirstOfEachKeepsKeys(AllObjects(closures));
    AllObjectsAre(closures);
    var c :| c in closures && Object(k, Merged(closures)[k]) in c.objects;
    i :| 0 <= i < |closures| && closures[i] == c;
  }

  lemma RootsAreMerged(env: Env, infos: Infos, tops: seq<string>, closures: seq<ClosureInfo>, i: nat)
    requires Describable(env, infos) && Prepared(env, infos, tops, closures) && i < |tops| && tops[i] in infos
    ensures closures[i].narinfoKey in Merged(closures)
  {
    hide StorePathHash, Reach, Describable, ObjectsAre, Merged, Graph;
    ReachIsClosed(Graph(infos), {tops[i]});
    NarinfoKeyed(env, infos, tops[i], tops[i], closures[i].objects);
    KeyIsMerged(closures, closures[i], closures[i].narinfoKey);
  }

  /** The merged listing is closed under refs and contains every root. */
  lemma PushIsClosed(env: Env, infos: Infos, tops: seq<string>, closures: seq<ClosureInfo>, roots: seq<string>)
    requires Describable(env, infos) && ReferenceClosed(infos) && Prepared(env, infos, tops, closures)
    requires RootsAre(roots, closures) && forall t :: t in tops ==> t in infos
    ensures GcTheorems.RefClosed(Merged(closures)) && forall root :: root in roots ==> root in Merged(closures)
  {
    hide StorePathHash, Reach, Describable, ObjectsAre, ReferenceClosed, Merged, Graph;
    forall k, r | k in Merged(closures) && r in Merged(closures)[k] ensures r in Merged(closures) {
      var i := MergedIsOfSome(closures, k);
      RefsAreKeyed(env, infos, tops[i], closures[i].objects, Object(k, Merged(closures)[k]), r);
      KeyIsMerged(closures, closures[i], r);
    }
    forall root | root in roots ensures root in Merged(closures) {
      var i :| 0 <= i < |roots| && roots[i] == root;
      assert tops[i] in tops;
      RootsAreMerged(env, infos, tops, closures, i);
    }
  }

  lemma KeyIsMerged(closures: seq<ClosureInfo>, c: ClosureInfo, k: string)
    requires c in closures && Keyed(c.objects, k)
    ensures k in Merged(closures)
  {
    hide FirstOfEach, AllObjects, ListingOf;
    AllObjectsAre(closures);
    FirstOfEachKeepsKeys(AllObjects(closures));
    ListingHolds(FirstOfEach(AllObjects(closures)));
    var o :| o in c.objects && o.key == k;
    assert o in AllObjects(closures);
  }

  /** A push of several closures meets it too: as long as the closure row of one of its roots
      lasts, everything the merged listing leads to from there has a live row and its bytes. */
  lemma ClientPushIsWhole(env: Env, infos: Infos, tops: seq<string>, closures: seq<ClosureInfo>,
                          roots: seq<string>, root: string, states: seq<GcState.State>, steps: seq<GcSteps.Step>,
                          i: nat, n: nat, path: seq<string>)
    requires Describable(env, infos) && ReferenceClosed(infos) && Prepared(env, infos, tops, closures)
    requires (forall t :: t in tops ==> t in infos) && RootsAre(roots, closures) && root in roots
    requires GcSteps.IsRun(states, steps) && i < n < |states|
    requires steps[i].CommitPush? && steps[i].id in states[i].pending
    requires states[i].pending[steps[i].id].roots == Elements(roots)
    requires states[i].pending[steps[i].id].objs == Merged(closures)
    requires forall j :: i < j <= n ==> root in states[j].closures
    requires IsPath(Merged(closures), path) && path[0] == root
    ensures GcState.Live(states[n].rows, path[|path| - 1]) && path[|path| - 1] in states[n].bucket
  {
    hide StorePathHash, Reach, Describable, ObjectsAre, ReferenceClosed, Prepared, Merged, RootsAre;
    PushIsClosed(env, infos, tops, closures, roots);
    GcTheorems.PublishedClosureIsWhole(states, steps, i, n, root, Merged(closures), path);
  }

  // ---- what the closure's own references reach ----

  predicate IsLogKey(k: string) {
    HasPrefix(k, "log/")
  }

  lemma SlashAt(k: string, prefix: string, rest: string, i: nat)
    requires k == prefix + rest && i < |prefix| && prefix[i] == '/'
    ensures i < |k| && k[i] == '/'
  {
  }

  /** A narinfo key looks like no other object's key. */
  predicate IsNarinfoKey(k: string) {
    |k| == StoreHashLength + 8 && k[3] != '/' && k[12] != '/'
  }

  lemma NarinfoKeyShape(path: string)
    requires StorePathHash(path).Some?
    ensures var hash := StorePathHash(path).value;
            IsNarinfoKey(NarinfoKey(hash)) && NarinfoKey(hash)[..StoreHashLength] == hash
            && !IsLogKey(NarinfoKey(hash)) && !IsLogKey(ListingKey(hash)) && !IsNarinfoKey(ListingKey(hash))
  {
    hide Base;
    var hash := StorePathHash(path).value;
    assert '/' !in NixBase32.Alphabet;
    assert hash[3] in NixBase32.Alphabet && hash[12] in NixBase32.Alphabet;
    assert NarinfoKey(hash)[3] == hash[3] && ListingKey(hash)[3] == hash[3] && NarinfoKey(hash)[12] == hash[12];
    assert "log/"[3] == '/';
  }

  lemma OtherKeyShapes(x: string)
    ensures !IsNarinfoKey(NarKey(x)) && !IsNarinfoKey(LogKey(x)) && !IsNarinfoKey(RealisationKey(x))
    ensures !IsLogKey(NarKey(x)) && !IsLogKey(RealisationKey(x)) && IsLogKey(LogKey(x))
  {
    hide Base;
    SlashAt(NarKey(x), "nar/", x + ".nar.zst", 3);
    SlashAt(LogKey(x), "log/", Base(x), 3);
    SlashAt(RealisationKey(x), "realisations/", x + ".doi", 12);
    assert NarKey(x)[0] == 'n' && RealisationKey(x)[0] == 'r' && "log/"[0] == 'l';
  }

  function NarinfoObject(env: Env, path: string, info: PathInfo): Object
    requires ObjectsOf(env, path, info).Some?
  {
    Object(NarinfoKey(StorePathHash(path).value),
           RefKeys(info.references).value
             + {NarKey(env.nar32(info.narHash).value), ListingKey(StorePathHash(path).value)}
           + RealisationKeys(env, path))
  }

  /** A path's objects by kind: only its narinfo has a narinfo key, only the log a log key,
      and the others are among the narinfo's references. */
  lemma ObjectShapes(env: Env, path: string, info: PathInfo, o: Object)
    requires ObjectsOf(env, path, info).Some? && o in ObjectsOf(env, path, info).value
    ensures o == NarinfoObject(env, path, info) ==> IsNarinfoKey(o.key) && !IsLogKey(o.key)
    ensures o != NarinfoObject(env, path, info) ==> !IsNarinfoKey(o.key) && o.refs == {}
    ensures o == NarinfoObject(env, path, info) || o.key in NarinfoObject(env, path, info).refs || IsLogKey(o.key)
  {
    hide StorePathHash, Base, IsLogKey, IsNarinfoKey, NarinfoKey, NarKey, ListingKey, LogKey, RealisationKey, RefKeys;
    NarinfoKeyShape(path);
    OtherKeyShapes(env.nar32(info.narHash).value);
    OtherKeyShapes(info.deriver);
    forall k | k in RealisationKeys(env, path) ensures !IsNarinfoKey(k) {
      var id :| id in env.realisations && k == RealisationKey(id);
      OtherKeyShapes(id);
    }
  }

  lemma SameNarinfoKey(p: string, q: string)
    requires StorePathHash(p).Some? && StorePathHash(q).Some?
    requires NarinfoKey(StorePathHash(p).value) == NarinfoKey(StorePathHash(q).value)
    ensures StorePathHash(p) == StorePathHash(q)
  {
    hide StorePathHash;
    NarinfoKeyShape(p);
    NarinfoKeyShape(q);
  }

  /** No reference of a narinfo is a log. */
  lemma RefsAreNotLogs(env: Env, path: string, info: PathInfo, r: string)
    requires ObjectsOf(env, path, info).Some? && r in NarinfoObject(env, path, info).refs
    ensures !IsLogKey(r)
  {
    hide StorePathHash, Base, IsLogKey, IsNarinfoKey, NarinfoKey, NarKey, ListingKey, LogKey, RealisationKey;
    RefKeysAre(info.references);
    NarinfoKeyShape(path);
    if r in RefKeys(info.references).value {
      var p :| p in info.references && StorePathHash(p).Some? && r == NarinfoKey(StorePathHash(p).value);
      NarinfoKeyShape(p);
    } else if r in RealisationKeys(env, path) {
      var id :| id in env.realisations && r == RealisationKey(id);
      OtherKeyShapes(id);
    } else {
      OtherKeyShapes(env.nar32(info.narHash).value);
    }
  }

  /** What the listing says of a path's narinfo. */
  lemma NarinfoRefs(env: Env, infos: Infos, top: string, objects: seq<Object>, p: string)
    requires Describable(env, infos) && HashesDiffer(infos) && ObjectsAre(env, infos, top, Elements(objects))
    requires p in Reach(Graph(infos), {top}) && p in infos
    ensures StorePathHash(p).Some?
    ensures var o := NarinfoObject(env, p, infos[p]); o.key in ListingOf(objects) && ListingOf(objects)[o.key] == o.refs
  {
    hide StorePathHash, Reach, Graph;
    var own := NarinfoObject(env, p, infos[p]);
    assert own in ObjectsOf(env, p, infos[p]).value;
    assert own in Elements(objects);
    ListingHolds(objects);
    var listed := Object(own.key, ListingOf(objects)[own.key]);
    assert listed in Elements(objects);
    ListedIsOwn(env, infos, top, objects, p, listed);
  }

  lemma ListedIsOwn(env: Env, infos: Infos, top: string, objects: seq<Object>, p: string, o: Object)
    requires Describable(env, infos) && HashesDiffer(infos) && ObjectsAre(env, infos, top, Elements(objects))
    requires p in infos && o in Elements(objects) && o.key == NarinfoObject(env, p, infos[p]).key
    ensures o == NarinfoObject(env, p, infos[p])
  {
    hide StorePathHash, Reach, Graph, ObjectsOf;
    OwnNarinfo(env, p, infos[p]);
    NarinfoKeyShape(p);
    var q :| q in Reach(Graph(infos), {top}) && q in infos && ObjectsOf(env, q, infos[q]).Some?
      && o in ObjectsOf(env, q, infos[q]).value;
    ObjectShapes(env, q, infos[q], o);
    OwnNarinfo(env, q, infos[q]);
    SameNarinfoKey(p, q);
  }

  lemma NarinfosAreReached(env: Env, infos: Infos, top: string, objects: seq<Object>, p: string)
    requires Describable(env, infos) && ReferenceClosed(infos) && HashesDiffer(infos) && top in infos
    requires ObjectsAre(env, infos, top, Elements(objects)) && p in Reach(Graph(infos), {top})
    ensures p in infos && StorePathHash(p).Some? && StorePathHash(top).Some?
    ensures NarinfoKey(StorePathHash(p).value) in Reach(ListingOf(objects), {NarinfoKey(StorePathHash(top).value)})
  {
    hide StorePathHash, ObjectsOf, Describable;
    var g, listing := Graph(infos), ListingOf(objects);
    HashOf(env, infos, top);
    var root := NarinfoKey(StorePathHash(top).value);
    ReachIsClosed(g, {top});
    ReachIsClosed(listing, {root});
    var s := set q | q in Reach(g, {top}) && q in infos && StorePathHash(q).Some?
      && NarinfoKey(StorePathHash(q).value) in Reach(listing, {root});
    forall q, r | q in s && r in Refs(g, q) ensures r in s {
      NarinfoRefs(env, infos, top, objects, q);
      HashOf(env, infos, r);
      RefOfNarinfo(env, infos, q, r);
      assert NarinfoKey(StorePathHash(r).value) in Refs(listing, NarinfoKey(StorePathHash(q).value));
    }
    ReachIsLeast(g, {top}, s);
  }

  lemma HashOf(env: Env, infos: Infos, p: string)
    requires Describable(env, infos) && p in infos
    ensures StorePathHash(p).Some?
  {
    hide StorePathHash;
  }

  lemma RefOfNarinfo(env: Env, infos: Infos, p: string, r: string)
    requires Describable(env, infos) && p in infos && r in infos[p].references && StorePathHash(r).Some?
    ensures NarinfoKey(StorePathHash(r).value) in NarinfoObject(env, p, infos[p]).refs
  {
    hide StorePathHash;
    RefKeysAre(infos[p].references);
  }

  /** From the closure's own narinfo, its references lead to every object of the closure but
      the build logs, and never to a build log. */
  lemma ReachedUnlessLog(env: Env, infos: Infos, top: string, objects: seq<Object>, o: Object)
    requires Describable(env, infos) && ReferenceClosed(infos) && HashesDiffer(infos) && top in infos
    requires ObjectsAre(env, infos, top, Elements(objects)) && o in objects && StorePathHash(top).Some?
    ensures o.key in Reach(ListingOf(objects), {NarinfoKey(StorePathHash(top).value)}) <==> !IsLogKey(o.key)
  {
    hide StorePathHash, ObjectsOf, Describable, ReferenceClosed, HashesDiffer, Graph;
    var listing, root := ListingOf(objects), NarinfoKey(StorePathHash(top).value);
    ReachIsClosed(listing, {root});
    assert o in Elements(objects);
    var p :| p in Reach(Graph(infos), {top}) && p in infos && ObjectsOf(env, p, infos[p]).Some?
      && o in ObjectsOf(env, p, infos[p]).value;
    ObjectShapes(env, p, infos[p], o);
    NarinfosAreReached(env, infos, top, objects, p);
    NarinfoRefs(env, infos, top, objects, p);
    var own := NarinfoObject(env, p, infos[p]);
    assert o.key in own.refs ==> o.key in Refs(listing, own.key);
    LogsAreNotReached(env, infos, top, objects);
  }

  lemma LogsAreNotReached(env: Env, infos: Infos, top: string, objects: seq<Object>)
    requires ObjectsAre(env, infos, top, Elements(objects)) && StorePathHash(top).Some?
    ensures forall k :: k in Reach(ListingOf(objects), {NarinfoKey(StorePathHash(top).value)}) ==> !IsLogKey(k)
  {
    hide StorePathHash, ObjectsOf, Graph, IsLogKey, NarinfoObject;
    var listing, root := ListingOf(objects), NarinfoKey(StorePathHash(top).value);
    ReachIsClosed(listing, {root});
    NarinfoKeyShape(top);
    ListingHolds(objects);
    var s := set k | k in Reach(listing, {root}) && !IsLogKey(k);
    forall k, r | k in s && r in Refs(listing, k) ensures r in s {
      var o := Object(k, listing[k]);
      assert o in Elements(objects);
      var p :| p in Reach(Graph(infos), {top}) && p in infos && ObjectsOf(env, p, infos[p]).Some?
        && o in ObjectsOf(env, p, infos[p]).value;
      ObjectShapes(env, p, infos[p], o);
      RefsAreNotLogs(env, p, infos[p], r);
    }
    ReachIsLeast(listing, {root}, s);
  }

  // ---- filterOversizedClosures ----

  datatype Skipped = Skipped(paths: nat, narBytes: nat, reasons: map<string, string>)

  const NothingSkipped: Skipped := Skipped(0, 0, map[])

  ghost predicate Oversized(infos: Infos, limit: nat, top: string) {
    exists p :: p in Reach(Graph(infos), {top}) && TooLarge(infos, limit, p)
  }

  predicate TooLarge(infos: Infos, limit: nat, p: string) {
    p in infos && infos[p].narSize > limit
  }

  ghost function KeptOf(tops: seq<string>, infos: Infos, limit: nat): seq<string> {
    if tops == [] then []
    else
      var init := KeptOf(tops[..|tops| - 1], infos, limit);
      if Oversized(infos, limit, tops[|tops| - 1]) then init else init + [tops[|tops| - 1]]
  }

  /** The infos of the paths that some kept top-level path reaches. */
  ghost predicate IsPruned(kept: seq<string>, infos: Infos, pruned: Infos) {
    && (forall p :: p in pruned <==> p in infos && exists t :: t in kept && p in Reach(Graph(infos), {t}))
    && forall p :: p in pruned ==> pruned[p] == infos[p]
  }

  ghost function Bytes(infos: Infos): nat {
    if infos == map[] then 0
    else
      var p :| p in infos;
      infos[p].narSize + Bytes(infos - {p})
  }

  lemma {:induction false} BytesWithout(infos: Infos, p: string)
    requires p in infos
    ensures Bytes(infos) == infos[p].narSize + Bytes(infos - {p})
  {
    var q :| q in infos && Bytes(infos) == infos[q].narSize + Bytes(infos - {q});
    if q != p {
      BytesWithout(infos - {q}, p);
      assert infos - {q} - {p} == infos - {p} - {q};
      BytesWithout(infos - {p}, q);
    }
  }

  lemma {:induction false} BytesSplit(infos: Infos, part: set<string>)
    requires part <= infos.Keys
    ensures Bytes(infos) == Bytes(infos - part) + Bytes(infos - (infos.Keys - part))
  {
    if part == {} {
      assert infos - part == infos;
      assert infos - (infos.Keys - part) == map[];
    } else {
      var p :| p in part;
      var rest := infos - {p};
      BytesWithout(infos, p);
      BytesSplit(rest, part - {p});
      assert rest - (part - {p}) == infos - part;
      var dropped := infos - (infos.Keys - part);
      BytesWithout(dropped, p);
      assert rest - (rest.Keys - (part - {p})) == dropped - {p};
    }
  }

  method FindOversized(members: set<string>, infos: Infos, limit: nat) returns (path: Option<string>)
    ensures path.Some? ==> path.value in members && TooLarge(infos, limit, path.value)
    ensures path.None? ==> forall p :: p in members ==> !TooLarge(infos, limit, p)
  {
    var rest := members;
    while rest != {}
      invariant rest <= members && forall p :: p in members - rest ==> !TooLarge(infos, limit, p)
    {
      var p :| p in rest;
      if p in infos && infos[p].narSize > limit {
        return Some(p);
      }
      rest := rest - {p};
    }
    path := None;
  }

  method KeepClosures(tops: seq<string>, infos: Infos, limit: nat, members: map<string, set<string>>)
    returns (kept: seq<string>, reasons: map<string, string>)
    requires members.Keys == Elements(tops) && forall t :: t in tops ==> members[t] == Reach(Graph(infos), {t})
    ensures kept == KeptOf(tops, infos, limit)
    ensures forall t :: t in reasons <==> t in tops && Oversized(infos, limit, t)
    ensures forall t :: t in reasons ==> reasons[t] in Reach(Graph(infos), {t}) && TooLarge(infos, limit, reasons[t])
  {
    hide Graph, Reach, TooLarge;
    kept, reasons := [], map[];
    for i := 0 to |tops|
      invariant kept == KeptOf(tops[..i], infos, limit)
      invariant forall t :: t in reasons <==> t in tops[..i] && Oversized(infos, limit, t)
      invariant forall t :: t in reasons ==>
        reasons[t] in Reach(Graph(infos), {t}) && TooLarge(infos, limit, reasons[t])
    {
      var path := FindOversized(members[tops[i]], infos, limit);
      assert tops[..i + 1][..i] == tops[..i];
      assert path.Some? <==> Oversized(infos, limit, tops[i]);
      if path.Some? {
        reasons := reasons[tops[i] := path.value];
      } else {
        kept := kept + [tops[i]];
      }
    }
    assert tops[..|tops|] == tops;
  }

  method Prune(kept: seq<string>, infos: Infos, members: map<string, set<string>>) returns (pruned: Infos)
    requires forall t :: t in kept ==> t in members && members[t] == Reach(Graph(infos), {t})
    ensures IsPruned(kept, infos, pruned)
  {
    hide Graph, Reach;
    pruned := map[];
    for i := 0 to |kept|
      invariant IsPruned(kept[..i], infos, pruned)
    {
      var rest := members[kept[i]];
      ghost var before := pruned;
      while rest != {}
        invariant rest <= members[kept[i]]
        invariant forall p :: p in pruned <==> p in before || (p in infos && p in members[kept[i]] && p !in rest)
        invariant forall p :: p in pruned ==> p in infos && pruned[p] == infos[p]
      {
        var p :| p in rest;
        rest := rest - {p};
        if p in infos {
          pruned := pruned[p := infos[p]];
        }
      }
      PrunedMore(kept, infos, before, pruned, i);
    }
    assert kept[..|kept|] == kept;
  }

  lemma PrunedMore(kept: seq<string>, infos: Infos, before: Infos, after: Infos, i: nat)
    requires i < |kept| && IsPruned(kept[..i], infos, before)
    requires forall p :: p in after <==> p in before || (p in infos && p in Reach(Graph(infos), {kept[i]}))
    requires forall p :: p in after ==> p in infos && after[p] == infos[p]
    ensures IsPruned(kept[..i + 1], infos, after)
  {
    hide Graph, Reach;
    assert kept[..i + 1] == kept[..i] + [kept[i]];
    forall p ensures p in after <==> p in infos && exists t :: t in kept[..i + 1] && p in Reach(Graph(infos), {t}) {
      if p in before {
        var t :| t in kept[..i] && p in Reach(Graph(infos), {t});
        assert t in kept[..i + 1];
      }
    }
  }

  /** uint64 addition. */
  function Add64(a: nat, b: nat): nat { (a + b) % TwoTo64 }

  method CountSkipped(infos: Infos, pruned: Infos, reasons: map<string, string>) returns (skipped: Skipped)
    requires pruned.Keys <= infos.Keys
    ensures skipped.paths + |pruned.Keys| == |infos.Keys| && skipped.reasons == reasons
    ensures skipped.narBytes == Bytes(infos - pruned.Keys) % TwoTo64
  {
    hide Counted, Bytes, Add64;
    var paths: nat, narBytes: nat := 0, 0;
    var rest := infos.Keys;
    NoneCounted(infos, pruned);
    while rest != {}
      invariant rest <= infos.Keys && Counted(infos, pruned, rest, paths, narBytes)
    {
      var p :| p in rest;
      CountOne(infos, pruned, rest, paths, narBytes, p);
      if p !in pruned {
        paths, narBytes := paths + 1, Add64(narBytes, infos[p].narSize);
      }
      rest := rest - {p};
    }
    AllCounted(infos, pruned, paths, narBytes);
    skipped := Skipped(paths, narBytes, reasons);
  }

  function Dropped(infos: Infos, pruned: Infos, rest: set<string>): Infos {
    map p | p in infos && p !in pruned && p !in rest :: infos[p]
  }

  /** The dropped paths outside `rest` have been counted. */
  ghost predicate Counted(infos: Infos, pruned: Infos, rest: set<string>, paths: nat, narBytes: nat) {
    paths == |Dropped(infos, pruned, rest).Keys| && narBytes == Bytes(Dropped(infos, pruned, rest)) % TwoTo64
  }

  lemma NoneCounted(infos: Infos, pruned: Infos)
    ensures Counted(infos, pruned, infos.Keys, 0, 0)
  {
    assert Dropped(infos, pruned, infos.Keys) == map[];
  }

  lemma DropOne(infos: Infos, pruned: Infos, rest: set<string>, p: string)
    requires p in rest && rest <= infos.Keys
    ensures p in pruned ==> Dropped(infos, pruned, rest - {p}) == Dropped(infos, pruned, rest)
    ensures p !in pruned ==>
      && p !in Dropped(infos, pruned, rest)
      && Dropped(infos, pruned, rest - {p}) == Dropped(infos, pruned, rest)[p := infos[p]]
  {
  }

  lemma CountOne(infos: Infos, pruned: Infos, rest: set<string>, paths: nat, narBytes: nat, p: string)
    requires Counted(infos, pruned, rest, paths, narBytes) && p in rest && rest <= infos.Keys
    ensures p in pruned ==> Counted(infos, pruned, rest - {p}, paths, narBytes)
    ensures p !in pruned ==> Counted(infos, pruned, rest - {p}, paths + 1, Add64(narBytes, infos[p].narSize))
  {
    hide Bytes, Dropped;
    DropOne(infos, pruned, rest, p);
    if p !in pruned {
      var before := Dropped(infos, pruned, rest);
      var after := before[p := infos[p]];
      BytesWithout(after, p);
      assert after - {p} == before && after.Keys == before.Keys + {p};
      AddWraps(Bytes(before), infos[p].narSize);
    }
  }

  lemma AddWraps(a: nat, b: nat)
    ensures Add64(a % TwoTo64, b) == (b + a) % TwoTo64
  {
  }

  lemma DroppedAll(infos: Infos, pruned: Infos)
    ensures Dropped(infos, pruned, {}) == infos - pruned.Keys
  {
  }

  lemma Partition<T>(a: set<T>, b: set<T>, c: set<T>)
    requires c == a + b && a !! b
    ensures |a| + |b| == |c|
  {
  }

  lemma AllCounted(infos: Infos, pruned: Infos, paths: nat, narBytes: nat)
    requires pruned.Keys <= infos.Keys && Counted(infos, pruned, {}, paths, narBytes)
    ensures paths + |pruned.Keys| == |infos.Keys| && narBytes == Bytes(infos - pruned.Keys) % TwoTo64
  {
    hide Bytes;
    DroppedAll(infos, pruned);
    var d := Dropped(infos, pruned, {}).Keys;
    hide Dropped;
    Partition(d, pruned.Keys, infos.Keys);
  }

  method FilterOversizedClosures(tops: seq<string>, infos: Infos, maxNarSize: nat)
    returns (kept: seq<string>, pruned: Infos, skipped: Skipped)
    ensures maxNarSize == 0 || |KeptOf(tops, infos, maxNarSize)| == |tops| ==>
      kept == tops && pruned == infos && skipped == NothingSkipped
    ensures maxNarSize > 0 && |KeptOf(tops, infos, maxNarSize)| < |tops| ==>
      && kept == KeptOf(tops, infos, maxNarSize) && IsPruned(kept, infos, pruned)
      && skipped.paths + |pruned.Keys| == |infos.Keys|
      && skipped.narBytes == (Bytes(infos) - Bytes(pruned)) % TwoTo64
      && forall t :: t in skipped.reasons <==> t in tops && Oversized(infos, maxNarSize, t)
  {
    hide Graph, Reach, KeptOf, IsPruned, Oversized, Bytes;
    if maxNarSize == 0 {
      return tops, infos, NothingSkipped;
    }
    var members := ComputeClosureMembership(tops, infos);
    var reasons: map<string, string>;
    kept, reasons := KeepClosures(tops, infos, maxNarSize, members);
    KeptAreTops(tops, infos, maxNarSize);
    if |kept| == |tops| {
      return tops, infos, NothingSkipped;
    }
    pruned := Prune(kept, infos, members);
    PrunedIsPart(kept, infos, pruned);
    skipped := CountSkipped(infos, pruned, reasons);
  }

  lemma PrunedIsPart(kept: seq<string>, infos: Infos, pruned: Infos)
    requires IsPruned(kept, infos, pruned)
    ensures pruned.Keys <= infos.Keys && Bytes(infos - pruned.Keys) == Bytes(infos) - Bytes(pruned)
  {
    hide Bytes;
    BytesSplit(infos, pruned.Keys);
    assert infos - (infos.Keys - pruned.Keys) == pruned;
  }

  lemma {:induction false} KeptAreTops(tops: seq<string>, infos: Infos, limit: nat)
    ensures |KeptOf(tops, infos, limit)| <= |tops|
    ensures forall t :: t in KeptOf(tops, infos, limit) <==> t in tops && !Oversized(infos, limit, t)
  {
    if tops != [] {
      KeptAreTops(tops[..|tops| - 1], infos, limit);
      assert tops == tops[..|tops| - 1] + [tops[|tops| - 1]];
    }
  }

  // ---- what the filter keeps intact ----

  /** A kept path reaches the same paths with info as before. */
  lemma SameReach(kept: seq<string>, infos: Infos, pruned: Infos, t: string)
    requires IsPruned(kept, infos, pruned) && t in kept
    ensures Reach(Graph(pruned), {t}) == Reach(Graph(infos), {t})
    ensures forall p :: p in Reach(Graph(infos), {t}) && p in infos ==> p in pruned
  {
    var g, h := Graph(pruned), Graph(infos);
    ReachIsMonotone(g, h, {t}, {t});
    ReachIsClosed(g, {t});
    ReachIsClosed(h, {t});
    var s := Reach(g, {t});
    forall p, r | p in s && r in Refs(h, p) ensures r in s {
      assert p in infos && p in pruned;
      assert r in Refs(g, p);
    }
    ReachIsLeast(h, {t}, s);
  }

  /** The closures that are pushed are the ones that would have been pushed: complete, and
      with nothing over the limit. */
  lemma KeptClosuresAreWhole(env: Env, tops: seq<string>, infos: Infos, limit: nat, pruned: Infos, t: string,
                             objects: set<Object>)
    requires IsPruned(KeptOf(tops, infos, limit), infos, pruned) && t in KeptOf(tops, infos, limit)
    ensures ObjectsAre(env, pruned, t, objects) <==> ObjectsAre(env, infos, t, objects)
    ensures forall p :: p in Reach(Graph(pruned), {t}) && p in pruned ==> pruned[p].narSize <= limit
    ensures ReferenceClosed(infos) ==> ReferenceClosed(pruned) && (t in infos ==> t in pruned)
  {
    hide ObjectsOf, Graph, Reach;
    var kept := KeptOf(tops, infos, limit);
    SameReach(kept, infos, pruned, t);
    KeptAreTops(tops, infos, limit);
    forall p | p in Reach(Graph(pruned), {t}) && p in pruned ensures pruned[p].narSize <= limit {
      assert !TooLarge(infos, limit, p);
    }
    SameObjects(env, infos, pruned, t, objects);
    ReachIsClosed(Graph(infos), {t});
    if ReferenceClosed(infos) {
      PrunedIsClosed(kept, infos, pruned);
    }
  }

  lemma SameObjects(env: Env, infos: Infos, pruned: Infos, t: string, objects: set<Object>)
    requires Reach(Graph(pruned), {t}) == Reach(Graph(infos), {t})
    requires forall p :: p in pruned ==> p in infos && pruned[p] == infos[p]
    requires forall p :: p in Reach(Graph(infos), {t}) && p in infos ==> p in pruned
    ensures ObjectsAre(env, pruned, t, objects) <==> ObjectsAre(env, infos, t, objects)
  {
    hide ObjectsOf, Graph, Reach;
    var reach := Reach(Graph(infos), {t});
    forall o ensures Owned(env, pruned, reach, o) <==> Owned(env, infos, reach, o) {
      if Owned(env, infos, reach, o) {
        var p :| p in reach && p in infos && ObjectsOf(env, p, infos[p]).Some?
          && o in ObjectsOf(env, p, infos[p]).value;
        assert p in pruned && ObjectsOf(env, p, pruned[p]).Some?;
      }
      if Owned(env, pruned, reach, o) {
        var p :| p in reach && p in pruned && ObjectsOf(env, p, pruned[p]).Some?
          && o in ObjectsOf(env, p, pruned[p]).value;
        assert p in infos && ObjectsOf(env, p, infos[p]).Some?;
      }
    }
  }

  lemma PrunedIsClosed(kept: seq<string>, infos: Infos, pruned: Infos)
    requires IsPruned(kept, infos, pruned) && ReferenceClosed(infos)
    ensures ReferenceClosed(pruned)
  {
    forall p, r | p in pruned && r in pruned[p].references ensures r in pruned {
      var t :| t in kept && p in Reach(Graph(infos), {t});
      ReachIsClosed(Graph(infos), {t});
      assert r in Refs(Graph(infos), p);
    }
  }
}
