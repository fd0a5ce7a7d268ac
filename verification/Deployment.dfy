/** Deployment as diff, patch and undo: the manifest, an install phase that may fail before any
    file operation, and the recovery recipe. A file's hash stands for its contents. */
module Deployment {
  import opened Basics

  type Path = string
  type Content = string

  datatype File = File(content: Content, mode: nat, uid: nat, gid: nat)

  type Tree = map<Path, File>
  type Hashes = map<Path, Content>

  function At(t: Tree, p: Path): Option<File> { if p in t then Some(t[p]) else None }
  function HashAt(h: Hashes, p: Path): Option<Content> { if p in h then Some(h[p]) else None }
  function HashesOf(t: Tree): Hashes { map p | p in t :: t[p].content }

  // ---------------------------------------------------------------- diff

  datatype Change = Change(before: Option<Content>, after: Content, mode: nat)
  datatype Manifest = Manifest(files: map<Path, Change>, removals: Hashes)

  /** `mode & 0o111`: some execute bit is set. */
  predicate Executable(mode: nat) { mode % 2 == 1 || mode / 8 % 2 == 1 || mode / 64 % 2 == 1 }

  /** 0o755 or 0o644. */
  function PackagedMode(mode: nat): nat { if Executable(mode) then 493 else 420 }

  function Diff(base: Hashes, build: Tree): Manifest {
    Manifest(
      map p | p in build && HashAt(base, p) != Some(build[p].content) ::
        Change(HashAt(base, p), build[p].content, PackagedMode(build[p].mode)),
      map p | p in base && p !in build :: base[p])
  }

  /** run_package(): a manifest needs at least one new or changed file. */
  method Package(base: Hashes, build: Tree) returns (m: Option<Manifest>)
    ensures m == if Diff(base, build).files == map[] then None else Some(Diff(base, build))
  {
    var files: map<Path, Change> := map[];
    var todo := build.Keys;
    while todo != {}
      invariant todo <= build.Keys
      invariant forall p :: p in files <==> p in build && p !in todo && HashAt(base, p) != Some(build[p].content)
      invariant forall p :: p in files ==> files[p] == Change(HashAt(base, p), build[p].content, PackagedMode(build[p].mode))
      decreases |todo|
    {
      var p :| p in todo;
      var before := HashAt(base, p);
      if before != Some(build[p].content) {
        files := files[p := Change(before, build[p].content, PackagedMode(build[p].mode))];
      }
      todo := todo - {p};
    }
    var removals := map p | p in base && p !in build :: base[p];
    assert files == Diff(base, build).files;
    return if files == map[] then None else Some(Manifest(files, removals));
  }

  // ---------------------------------------------------------------- the live tree against the manifest

  datatype Meta = Meta(existed: bool, mode: nat, uid: nat, gid: nat)
  type Facts = map<Path, Meta>

  /** The owner of the directory that holds a path. */
  type Owners = Path -> (nat, nat)

  predicate Disjoint(m: Manifest) { forall p :: p in m.files ==> p !in m.removals }

  function Paths(m: Manifest): set<Path> { m.files.Keys + m.removals.Keys }

  /** The hash the manifest expects to find, None for a new file. */
  function Before(m: Manifest, p: Path): Option<Content>
    requires p in Paths(m)
  {
    if p in m.files then m.files[p].before else Some(m.removals[p])
  }

  predicate PathAgrees(live: Tree, m: Manifest, p: Path)
    requires p in Paths(m)
  {
    HashAt(HashesOf(live), p) == Before(m, p)
  }

  predicate AgreeAmong(live: Tree, m: Manifest, ps: set<Path>)
    requires ps <= Paths(m)
  {
    forall p :: p in ps ==> PathAgrees(live, m, p)
  }

  /** Every replaced or removed file has its `before` hash, every new one is absent. */
  predicate Agrees(live: Tree, m: Manifest) { AgreeAmong(live, m, Paths(m)) }

  function FactOf(live: Tree, m: Manifest, owners: Owners, p: Path): Option<Meta>
    requires p in Paths(m)
  {
    if p in m.files && m.files[p].before.None? then
      Some(Meta(false, if m.files[p].mode == 0 then 420 else m.files[p].mode, owners(p).0, owners(p).1))
    else if p in live then Some(Meta(true, live[p].mode, live[p].uid, live[p].gid))
    else None
  }

  function FactsAmong(live: Tree, m: Manifest, owners: Owners, ps: set<Path>): Facts
    requires ps <= Paths(m)
  {
    map p | p in ps && FactOf(live, m, owners, p).Some? :: FactOf(live, m, owners, p).value
  }

  function FactsOf(live: Tree, m: Manifest, owners: Owners): Facts { FactsAmong(live, m, owners, Paths(m)) }

  // ---------------------------------------------------------------- patch

  function Installed(m: Manifest, facts: Facts, p: Path): File
    requires p in m.files && p in facts
  {
    File(m.files[p].after, facts[p].mode, facts[p].uid, facts[p].gid)
  }

  /** The tree once `done` is installed and `gone` retired. */
  function PatchedSoFar(live: Tree, m: Manifest, facts: Facts, done: set<Path>, gone: set<Path>): Tree
    requires done <= m.files.Keys <= facts.Keys
  {
    map p | p in live.Keys + done && p !in gone :: if p in done then Installed(m, facts, p) else live[p]
  }

  /** The tree a finished install phase leaves. */
  function Patched(live: Tree, m: Manifest, facts: Facts): Tree
    requires m.files.Keys <= facts.Keys
  {
    PatchedSoFar(live, m, facts, m.files.Keys, m.removals.Keys)
  }

  lemma {:induction false} FactsCover(live: Tree, m: Manifest, owners: Owners)
    requires Agrees(live, m)
    ensures FactsOf(live, m, owners).Keys == m.files.Keys + m.removals.Keys
    ensures forall p :: p in live && (p in m.files || p in m.removals) ==>
              FactsOf(live, m, owners)[p] == Meta(true, live[p].mode, live[p].uid, live[p].gid)
  {
    forall p | p in m.files || p in m.removals
      ensures FactOf(live, m, owners, p).Some?
    {
    }
  }

  /** The patched tree is the build tree, exactly when the live tree was the baseline: the
      files the manifest names were compared first, the others are found by the final digest. */
  lemma {:induction false} PatchGivesBuild(base: Hashes, build: Tree, live: Tree, owners: Owners)
    requires Agrees(live, Diff(base, build))
    ensures var m := Diff(base, build);
            var facts := FactsOf(live, m, owners);
            && m.files.Keys <= facts.Keys
            && (HashesOf(Patched(live, m, facts)) == HashesOf(build) <==> HashesOf(live) == base)
  {
    var m := Diff(base, build);
    FactsCover(live, m, owners);
    var after := Patched(live, m, FactsOf(live, m, owners));
    forall p
      ensures HashAt(HashesOf(after), p) == HashAt(HashesOf(build), p) <==> HashAt(HashesOf(live), p) == HashAt(base, p)
    {
    }
    SameHashes(HashesOf(after), HashesOf(build));
    SameHashes(HashesOf(live), base);
  }

  lemma {:induction false} SameHashes(a: Hashes, b: Hashes)
    ensures a == b <==> forall p :: HashAt(a, p) == HashAt(b, p)
  {
    if forall p :: HashAt(a, p) == HashAt(b, p) {
      forall p
        ensures p in a <==> p in b
        ensures p in a ==> a[p] == b[p]
      {
        assert HashAt(a, p) == HashAt(b, p);
      }
    }
  }

  /** Modes: a replaced file keeps the live mode and an unchanged one is not in the manifest,
      so the patched modes are the build's exactly when every file that existed before
      already had its mode. */
  lemma {:induction false} PatchModes(base: Hashes, build: Tree, live: Tree, owners: Owners)
    requires HashesOf(live) == base
    ensures var m := Diff(base, build);
            var facts := FactsOf(live, m, owners);
            && m.files.Keys <= facts.Keys
            && Patched(live, m, facts).Keys == build.Keys
            && ((forall p :: p in build ==> Patched(live, m, facts)[p].mode == PackagedMode(build[p].mode))
                <==> (forall p :: p in build && p in live ==> live[p].mode == PackagedMode(build[p].mode)))
  {
    var m := Diff(base, build);
    BaselineAgrees(base, build, live);
    FactsCover(live, m, owners);
    var after := Patched(live, m, FactsOf(live, m, owners));
    forall p | p in build
      ensures p in after && (after[p].mode == PackagedMode(build[p].mode)
                             <==> (p in live ==> live[p].mode == PackagedMode(build[p].mode)))
    {
    }
  }

  /** 0o755 for a file that anybody may execute, 0o644 for any other. */
  lemma {:induction false} PackagedModes(mode: nat)
    ensures PackagedMode(mode) == 493 <==> mode % 2 == 1 || mode / 8 % 2 == 1 || mode / 64 % 2 == 1
    ensures PackagedMode(mode) != 493 ==> PackagedMode(mode) == 420
  {
  }

  /** Owners: a replaced file keeps its own, a new one gets its directory's and the packaged
      mode, and every file not in the manifest stays as it is. */
  lemma {:induction false} PatchOwners(base: Hashes, build: Tree, live: Tree, owners: Owners, p: Path)
    requires HashesOf(live) == base && p in build
    ensures var m := Diff(base, build);
            var facts := FactsOf(live, m, owners);
            m.files.Keys <= facts.Keys && p in Patched(live, m, facts)
            && var f := Patched(live, m, facts)[p];
               f.content == build[p].content
               && (if p in live then f.uid == live[p].uid && f.gid == live[p].gid && f.mode == live[p].mode
                   else (f.uid, f.gid) == owners(p) && f.mode == PackagedMode(build[p].mode))
  {
    var m := Diff(base, build);
    BaselineAgrees(base, build, live);
    FactsCover(live, m, owners);
    var after := Patched(live, m, FactsOf(live, m, owners));
    assert p in live <==> p in base;
  }

  /** A file whose mode alone changed is not packaged, and one that is replaced keeps its old
      mode: neither becomes executable. */
  lemma {:induction false} ModesStay(a: Path, b: Path, x: Content, p: Content, q: Content, owners: Owners)
    requires a != b && p != q
    ensures var live := map[a := File(x, 420, 0, 0), b := File(p, 420, 0, 0)];
            var build := map[a := File(x, 493, 0, 0), b := File(q, 493, 0, 0)];
            var m := Diff(HashesOf(live), build);
            var facts := FactsOf(live, m, owners);
            && m.files.Keys == {b} <= facts.Keys && m.files[b].mode == 493 && m.removals.Keys == {}
            && At(Patched(live, m, facts), a) == Some(File(x, 420, 0, 0))
            && At(Patched(live, m, facts), b) == Some(File(q, 420, 0, 0))
  {
  }

  /** A build that only removes a file: there is something to do, and no file to package. */
  lemma {:induction false} RemovalOnly(a: Path, b: Path, x: Content, y: Content)
    requires a != b
    ensures var m := Diff(map[a := x, b := y], map[a := File(x, 420, 0, 0)]);
            m.files.Keys == {} && m.removals.Keys == {b} && m.removals[b] == y
  {
  }

  lemma {:induction false} BaselineAgrees(base: Hashes, build: Tree, live: Tree)
    requires HashesOf(live) == base
    ensures Agrees(live, Diff(base, build)) && Disjoint(Diff(base, build))
  {
  }

  lemma {:induction false} FactsWithOne(live: Tree, m: Manifest, owners: Owners, ps: set<Path>, p: Path)
    requires ps <= Paths(m) && p in Paths(m) && p !in ps
    ensures var fact := FactOf(live, m, owners, p);
            var among := FactsAmong(live, m, owners, ps);
            FactsAmong(live, m, owners, ps + {p}) == if fact.Some? then among[p := fact.value] else among
    ensures AgreeAmong(live, m, ps + {p}) <==> AgreeAmong(live, m, ps) && PathAgrees(live, m, p)
  {
  }

  lemma {:induction false} NextPath(live: Tree, m: Manifest, owners: Owners, todo: set<Path>, p: Path)
    requires todo <= Paths(m) && p in todo
    ensures var fact := FactOf(live, m, owners, p);
            var among := FactsAmong(live, m, owners, Paths(m) - todo);
            && FactsAmong(live, m, owners, Paths(m) - (todo - {p})) == (if fact.Some? then among[p := fact.value] else among)
            && (AgreeAmong(live, m, Paths(m) - (todo - {p})) <==> AgreeAmong(live, m, Paths(m) - todo) && PathAgrees(live, m, p))
  {
    assert Paths(m) - (todo - {p}) == Paths(m) - todo + {p};
    FactsWithOne(live, m, owners, Paths(m) - todo, p);
  }

  /** One entry of the comparison. */
  method ComparePath(live: Tree, m: Manifest, owners: Owners, p: Path) returns (fact: Option<Meta>, agrees: bool)
    requires p in Paths(m)
    ensures fact == FactOf(live, m, owners, p) && agrees == PathAgrees(live, m, p)
  {
    if p in m.files && m.files[p].before.None? {
      return Some(Meta(false, if m.files[p].mode == 0 then 420 else m.files[p].mode, owners(p).0, owners(p).1)), p !in live;
    }
    if p !in live {
      return None, false;
    }
    return Some(Meta(true, live[p].mode, live[p].uid, live[p].gid)), Some(live[p].content) == Before(m, p);
  }

  /** compare_live_baseline(): the facts of every manifest path, and whether nothing disagrees. */
  method CompareLiveBaseline(live: Tree, m: Manifest, owners: Owners) returns (facts: Facts, agrees: bool)
    requires Disjoint(m)
    ensures agrees <==> Agrees(live, m)
    ensures facts == FactsOf(live, m, owners)
  {
    facts, agrees := map[], true;
    var todo := Paths(m);
    assert Paths(m) - Paths(m) == {};
    while todo != {}
      invariant todo <= Paths(m)
      invariant facts == FactsAmong(live, m, owners, Paths(m) - todo)
      invariant agrees == AgreeAmong(live, m, Paths(m) - todo)
      decreases |todo|
    {
      var p :| p in todo;
      NextPath(live, m, owners, todo, p);
      var fact, same := ComparePath(live, m, owners, p);
      if fact.Some? {
        facts := facts[p := fact.value];
      }
      agrees := agrees && same;
      todo := todo - {p};
    }
    NothingLeft(Paths(m), todo);
  }

  // ---------------------------------------------------------------- undo

  /** What any failure between file operations leaves: each manifest path as it was or as it
      will be, every other path untouched, and at most one stray temporary file. */
  ghost predicate Midway(before: Tree, now: Tree, m: Manifest, facts: Facts, stray: Option<Path>)
    requires m.files.Keys <= facts.Keys
  {
    forall p :: Some(p) != stray ==> PathMidway(before, now, m, facts, p)
  }

  predicate PathMidway(before: Tree, now: Tree, m: Manifest, facts: Facts, p: Path)
    requires m.files.Keys <= facts.Keys
  {
    || At(now, p) == At(before, p)
    || (p in m.files && At(now, p) == Some(Installed(m, facts, p)))
    || (p !in m.files && p in m.removals && At(now, p) == None)
  }

  predicate PathSaved(backup: Hashes, m: Manifest, p: Path)
    requires p in Paths(m)
  {
    Before(m, p).Some? ==> HashAt(backup, p) == Before(m, p)
  }

  /** Every path that will be replaced or retired has a verified backup. */
  predicate Saved(backup: Hashes, m: Manifest) { forall p :: p in Paths(m) ==> PathSaved(backup, m, p) }

  /** One line of the recipe: the file it leaves at `p`. */
  function Recovered(backup: Hashes, m: Manifest, facts: Facts, p: Path): Option<File>
    requires p in Paths(m)
    requires Saved(backup, m) && p in facts
  {
    assert PathSaved(backup, m, p);
    if Before(m, p).None? then None
    else Some(File(backup[p], facts[p].mode, facts[p].uid, facts[p].gid))
  }

  /** Every line of the recipe puts back the original file: contents, mode and owner. */
  lemma {:induction false} LineRestores(before: Tree, backup: Hashes, m: Manifest, owners: Owners, p: Path)
    requires Agrees(before, m) && Disjoint(m) && Saved(backup, m)
    requires p in Paths(m)
    ensures p in FactsOf(before, m, owners)
    ensures Recovered(backup, m, FactsOf(before, m, owners), p) == At(before, p)
  {
    FactsCover(before, m, owners);
    assert PathAgrees(before, m, p);
  }

  lemma {:induction false} SoFarIsMidway(before: Tree, m: Manifest, facts: Facts, done: set<Path>, gone: set<Path>)
    requires done <= m.files.Keys <= facts.Keys && gone <= m.removals.Keys && Disjoint(m)
    ensures Midway(before, PatchedSoFar(before, m, facts, done, gone), m, facts, None)
  {
  }

  lemma {:induction false} OneMore(before: Tree, m: Manifest, facts: Facts, done: set<Path>, gone: set<Path>, p: Path)
    requires done <= m.files.Keys <= facts.Keys && Disjoint(m) && gone <= m.removals.Keys
    ensures var soFar := PatchedSoFar(before, m, facts, done, gone);
            && (p in m.files ==> PatchedSoFar(before, m, facts, done + {p}, gone) == soFar[p := Installed(m, facts, p)])
            && (p in m.removals ==> PatchedSoFar(before, m, facts, done, gone + {p}) == soFar - {p})
  {
  }

  lemma {:induction false} NothingYet(before: Tree, m: Manifest, facts: Facts)
    requires m.files.Keys <= facts.Keys
    ensures m.files.Keys - m.files.Keys == {}
    ensures PatchedSoFar(before, m, facts, m.files.Keys - m.files.Keys, {}) == before
  {
  }

  lemma {:induction false} NothingLeft(all: set<Path>, todo: set<Path>)
    requires todo == {}
    ensures all - todo == all
  {
  }

  lemma {:induction false} NextFile(before: Tree, m: Manifest, facts: Facts, todo: set<Path>, p: Path)
    requires m.files.Keys <= facts.Keys && Disjoint(m) && todo <= m.files.Keys && p in todo
    ensures var soFar := PatchedSoFar(before, m, facts, m.files.Keys - todo, {});
            && Midway(before, soFar, m, facts, None)
            && PatchedSoFar(before, m, facts, m.files.Keys - (todo - {p}), {}) == soFar[p := Installed(m, facts, p)]
            && soFar.Keys <= before.Keys + m.files.Keys
  {
    SoFarIsMidway(before, m, facts, m.files.Keys - todo, {});
    OneMore(before, m, facts, m.files.Keys - todo, {}, p);
    assert m.files.Keys - (todo - {p}) == m.files.Keys - todo + {p};
  }

  lemma {:induction false} NextRemoval(before: Tree, m: Manifest, facts: Facts, rest: set<Path>, p: Path)
    requires m.files.Keys <= facts.Keys && Disjoint(m) && rest <= m.removals.Keys && p in rest
    ensures var soFar := PatchedSoFar(before, m, facts, m.files.Keys, m.removals.Keys - rest);
            var next := PatchedSoFar(before, m, facts, m.files.Keys, m.removals.Keys - (rest - {p}));
            next == soFar - {p} && Midway(before, soFar, m, facts, None) && Midway(before, next, m, facts, None)
  {
    var gone := m.removals.Keys - rest;
    SoFarIsMidway(before, m, facts, m.files.Keys, gone);
    OneMore(before, m, facts, m.files.Keys, gone, p);
    assert m.removals.Keys - (rest - {p}) == gone + {p};
    SoFarIsMidway(before, m, facts, m.files.Keys, gone + {p});
  }

  /** Only `p` and a fresh name may differ from an undisturbed state. */
  lemma {:induction false} StillMidway(before: Tree, was: Tree, now: Tree, m: Manifest, facts: Facts, p: Path,
                                       temp: Path, stray: bool)
    requires m.files.Keys <= facts.Keys && p in m.files && Midway(before, was, m, facts, None)
    requires forall q :: q != temp && q != p ==> At(now, q) == At(was, q)
    requires At(now, p) == At(was, p) || At(now, p) == Some(Installed(m, facts, p))
    requires temp !in was && temp != p && (stray <==> temp in now)
    ensures Midway(before, now, m, facts, if stray then Some(temp) else None)
  {
    forall q | Some(q) != if stray then Some(temp) else None
      ensures PathMidway(before, now, m, facts, q)
    {
      assert PathMidway(before, was, m, facts, q);
      assert At(was, temp) == None;
    }
  }

  /** What the recipe can undo: backups of everything it needs, and no change outside the
      manifest but a stray temporary file. The manifest's own paths may hold anything. */
  ghost predicate Undoable(original: Tree, live: Tree, rolledBack: Tree, backup: Hashes, m: Manifest, facts: Facts,
                           owners: Owners, stray: Option<Path>)
  {
    && Disjoint(m) && Agrees(original, m) && Saved(backup, m) && facts == FactsOf(original, m, owners)
    && (forall p :: p !in Paths(m) && Some(p) != stray ==> At(live, p) == At(original, p))
    && (forall p :: p in rolledBack && p in Paths(m) ==> Before(m, p).None? && p !in live)
  }

  lemma {:induction false} MidwayIsUndoable(original: Tree, live: Tree, backup: Hashes, m: Manifest, facts: Facts,
                                            owners: Owners, stray: Option<Path>)
    requires Disjoint(m) && Agrees(original, m) && Saved(backup, m) && facts == FactsOf(original, m, owners)
    requires m.files.Keys <= facts.Keys && Midway(original, live, m, facts, stray)
    ensures Undoable(original, live, map[], backup, m, facts, owners, stray)
  {
    forall p | p !in Paths(m) && Some(p) != stray
      ensures At(live, p) == At(original, p)
    {
      assert PathMidway(original, live, m, facts, p);
    }
  }

  /** Back to the original, but for a stray temporary file. */
  ghost predicate Restored(original: Tree, live: Tree, stray: Option<Path>) {
    forall p :: Some(p) != stray ==> At(live, p) == At(original, p)
  }

  ghost predicate Back(original: Tree, live: Tree, ps: set<Path>) {
    forall q :: q in ps ==> At(live, q) == At(original, q)
  }

  ghost predicate OnlyAt(was: Tree, now: Tree, p: Path) { forall q :: q != p ==> At(now, q) == At(was, q) }

  /** A line of the recipe, finished or broken off, leaves an undoable state. */
  lemma {:induction false} StillUndoable(original: Tree, was: Tree, now: Tree, rolledBack: Tree, after: Tree,
                                         backup: Hashes, m: Manifest, facts: Facts, owners: Owners,
                                         stray: Option<Path>, p: Path)
    requires Undoable(original, was, rolledBack, backup, m, facts, owners, stray) && p in Paths(m)
    requires OnlyAt(was, now, p)
    requires after == rolledBack || (p in was && after == rolledBack[p := was[p]])
    requires p in after ==> Before(m, p).None? && p !in now
    ensures Undoable(original, now, after, backup, m, facts, owners, stray)
  {
    forall q | q in after && q in Paths(m)
      ensures Before(m, q).None? && q !in now
    {
      assert q != p ==> At(now, q) == At(was, q);
    }
  }

  /** A finished line puts one more path back. */
  lemma {:induction false} LineDone(original: Tree, was: Tree, now: Tree, rolledBack: Tree, backup: Hashes,
                                    m: Manifest, facts: Facts, owners: Owners, stray: Option<Path>, todo: set<Path>,
                                    p: Path)
    requires Undoable(original, was, rolledBack, backup, m, facts, owners, stray) && p in todo && todo <= Paths(m)
    requires OnlyAt(was, now, p)
    requires p in facts && At(now, p) == Recovered(backup, m, facts, p)
    requires Back(original, was, Paths(m) - todo)
    ensures Back(original, now, Paths(m) - (todo - {p}))
  {
    LineRestores(original, backup, m, owners, p);
  }

  lemma {:induction false} AllBack(original: Tree, live: Tree, rolledBack: Tree, backup: Hashes, m: Manifest,
                                   facts: Facts, owners: Owners, stray: Option<Path>)
    requires Undoable(original, live, rolledBack, backup, m, facts, owners, stray) && Back(original, live, Paths(m))
    ensures Restored(original, live, stray)
  {
  }

  /** The tree a whole recipe leaves. */
  function Undone(live: Tree, backup: Hashes, m: Manifest, facts: Facts): Tree
    requires Saved(backup, m) && Paths(m) <= facts.Keys
  {
    map p | p in live.Keys + Paths(m) && (p in Paths(m) ==> Recovered(backup, m, facts, p).Some?) ::
      if p in Paths(m) then Recovered(backup, m, facts, p).value else live[p]
  }

  /** Patch, whole or cut short, then undo: the original tree, file by file. */
  lemma {:induction false} PatchThenUndo(original: Tree, live: Tree, backup: Hashes, m: Manifest, owners: Owners)
    requires Disjoint(m) && Agrees(original, m) && Saved(backup, m)
    ensures var facts := FactsOf(original, m, owners);
            && facts.Keys == Paths(m)
            && (Midway(original, live, m, facts, None) ==> Undone(live, backup, m, facts) == original)
            && Undone(Patched(original, m, facts), backup, m, facts) == original
  {
    FactsCover(original, m, owners);
    var facts := FactsOf(original, m, owners);
    SoFarIsMidway(original, m, facts, m.files.Keys, m.removals.Keys);
    if Midway(original, live, m, facts, None) {
      UndoneIsOriginal(original, live, backup, m, owners);
    }
    UndoneIsOriginal(original, Patched(original, m, facts), backup, m, owners);
  }

  lemma {:induction false} UndoneIsOriginal(original: Tree, live: Tree, backup: Hashes, m: Manifest, owners: Owners)
    requires Disjoint(m) && Agrees(original, m) && Saved(backup, m)
    requires var facts := FactsOf(original, m, owners); facts.Keys == Paths(m) && Midway(original, live, m, facts, None)
    ensures Undone(live, backup, m, FactsOf(original, m, owners)) == original
  {
    var facts := FactsOf(original, m, owners);
    var undone := Undone(live, backup, m, facts);
    forall p
      ensures At(undone, p) == At(original, p)
    {
      if p in Paths(m) {
        LineRestores(original, backup, m, owners, p);
      } else {
        assert PathMidway(original, live, m, facts, p);
      }
    }
    SameTrees(undone, original);
  }

  lemma {:induction false} SameTrees(a: Tree, b: Tree)
    requires forall p :: At(a, p) == At(b, p)
    ensures a == b
  {
    forall p
      ensures p in a <==> p in b
      ensures p in a ==> a[p] == b[p]
    {
      assert At(a, p) == At(b, p);
    }
  }

  /** The temporary names exist nowhere yet. */
  predicate FreshNames(temps: map<Path, Path>, live: Tree, m: Manifest) {
    forall p :: p in m.files ==> p in temps && temps[p] !in live && temps[p] !in Paths(m)
  }

  /** What recovery.json holds: enough for every line of the recipe. */
  datatype Recovery = Recovery(manifest: Manifest, facts: Facts, recordBefore: Option<Content>)

  function ContentOf(f: Option<File>): Option<Content> { if f.Some? then Some(f.value.content) else None }

  datatype Service = Service(uid: nat, gid: nat)

  /** 0o600, and the service's own. */
  function RecordFile(c: Content, service: Service): File { File(c, 384, service.uid, service.gid) }

  /** The build record can be put back: it is untouched, or its copy was taken first. */
  predicate RecordUndoable(original: Option<File>, record: Option<File>, saved: Option<Content>, aside: Option<File>) {
    && (saved.Some? ==> saved == ContentOf(original))
    && (original.Some? && saved.None? ==> record == original)
    && (original.None? && aside.Some? ==> record.None?)
  }

  class Box {
    var live: Tree
    var backup: Hashes
    var retired: Tree
    var rolledBack: Tree
    /** data/hub-build.v1.json, its copy in the backup, and where the recipe moves it aside. */
    var record: Option<File>
    var savedRecord: Option<Content>
    var asideRecord: Option<File>
    var recovery: Option<Recovery>
    var dataSaved: bool
    var active: bool
    /** How many more operations succeed. */
    var fuse: nat

    constructor (files: Tree, buildRecord: Option<File>, operations: nat)
      ensures Untouched() && live == files && record == buildRecord && active && fuse == operations
    {
      live, record, fuse, active := files, buildRecord, operations, true;
      backup, retired, rolledBack, savedRecord, asideRecord := map[], map[], map[], None, None;
      recovery, dataSaved := None, false;
    }

    /** A fresh stage: nothing backed up, nothing rolled back. */
    predicate Untouched()
      reads this
    {
      rolledBack == map[] && savedRecord.None? && asideRecord.None? && recovery.None? && !dataSaved
    }

    method Attempt() returns (ok: bool)
      modifies this`fuse
    {
      ok := fuse > 0;
      if ok {
        fuse := fuse - 1;
      }
    }

    /** One verified backup. */
    method BackupOne(p: Path, expected: Content) returns (ok: bool)
      modifies this`fuse, this`backup
      ensures ok ==> backup == old(backup)[p := expected] && HashAt(HashesOf(live), p) == Some(expected)
      ensures !ok ==> backup == old(backup)
    {
      if p !in live || live[p].content != expected {
        return false;
      }
      ok := Attempt();
      if ok {
        backup := backup[p := live[p].content];
      }
    }

    /** backup_runtime_files(): it changes nothing live, and unless it fails every path that
        will be replaced or retired is saved. */
    method BackupRuntimeFiles(m: Manifest) returns (ok: bool)
      requires Disjoint(m)
      modifies this`fuse, this`backup
      ensures ok ==> Saved(backup, m)
    {
      var todo := Paths(m);
      while todo != {}
        invariant todo <= Paths(m)
        invariant forall p :: p in Paths(m) && p !in todo ==> PathSaved(backup, m, p)
        decreases |todo|
      {
        var p :| p in todo;
        var before := Before(m, p);
        if before.Some? {
          ok := BackupOne(p, before.value);
          if !ok {
            return false;
          }
        }
        todo := todo - {p};
      }
      return true;
    }

    /** install_file(): a temporary file beside the target takes its contents, owner and mode
        and replaces it in one operation. */
    method InstallFile(p: Path, f: File, temp: Path) returns (ok: bool, stray: bool)
      requires temp !in live && temp != p
      modifies this`fuse, this`live
      ensures ok ==> live == old(live)[p := f] && !stray
      ensures stray <==> temp in live
      ensures forall q :: q != temp && q != p ==> At(live, q) == At(old(live), q)
      ensures At(live, p) == At(old(live), p) || At(live, p) == Some(f)
    {
      stray := false;
      ok := Attempt();
      if !ok {
        return;
      }
      live := live[temp := File("", 384, 0, 0)];
      stray := true;
      ok := Attempt();
      if !ok {
        return;
      }
      live := live[temp := f];
      ok := Attempt();
      if !ok {
        return;
      }
      live := (live - {temp})[p := f];
      stray := false;
      ok := Attempt();
    }

    /** retire_file(): the live file is moved aside, or on another file system copied,
        verified and unlinked. */
    method RetireFile(p: Path, expected: Content, sameFileSystem: bool) returns (ok: bool)
      modifies this`fuse, this`live, this`retired
      ensures ok ==> live == old(live) - {p}
      ensures live == old(live) || (live == old(live) - {p} && p in old(live) && HashAt(HashesOf(retired), p) == Some(old(live)[p].content))
      ensures forall q :: q in old(retired) ==> q in retired && retired[q] == old(retired)[q]
    {
      if p !in live || live[p].content != expected || p in retired {
        return false;
      }
      ok := Attempt();
      if !ok {
        return;
      }
      if sameFileSystem {
        live, retired := live - {p}, retired[p := live[p]];
      } else {
        retired := retired[p := File(live[p].content, 384, 0, 0)];
        ok := Attempt();
        if !ok {
          return;
        }
        live := live - {p};
      }
      ok := Attempt();
    }

    /** One turn of the loop over the manifest's files. */
    method InstallNext(m: Manifest, facts: Facts, staged: Hashes, p: Path, temp: Path, ghost before: Tree, ghost todo: set<Path>)
      returns (ok: bool, stray: Option<Path>)
      requires m.files.Keys <= facts.Keys && Disjoint(m) && todo <= m.files.Keys && p in todo
      requires temp !in before && temp !in m.files
      requires live == PatchedSoFar(before, m, facts, m.files.Keys - todo, {})
      modifies this`fuse, this`live
      ensures ok ==> live == PatchedSoFar(before, m, facts, m.files.Keys - (todo - {p}), {})
      ensures !ok ==> Midway(before, live, m, facts, stray) && (stray.Some? ==> stray.value == temp)
    {
      NextFile(before, m, facts, todo, p);
      ghost var was := live;
      if p !in staged || staged[p] != m.files[p].after {
        return false, None;
      }
      var left: bool;
      ok, left := InstallFile(p, Installed(m, facts, p), temp);
      stray := if left then Some(temp) else None;
      if !ok {
        StillMidway(before, was, live, m, facts, p, temp, left);
      }
    }

    /** The loop over the manifest's files. Wherever it stops, the live tree is midway. */
    method InstallFiles(m: Manifest, facts: Facts, staged: Hashes, temps: map<Path, Path>) returns (ok: bool, stray: Option<Path>)
      requires m.files.Keys <= facts.Keys && Disjoint(m) && FreshNames(temps, live, m)
      modifies this`fuse, this`live
      ensures ok ==> stray == None && live == PatchedSoFar(old(live), m, facts, m.files.Keys, {})
      ensures !ok ==> Midway(old(live), live, m, facts, stray)
      ensures stray.Some? ==> stray.value !in old(live) && stray.value !in Paths(m)
    {
      var todo := m.files.Keys;
      NothingYet(live, m, facts);
      while todo != {}
        invariant todo <= m.files.Keys
        invariant live == PatchedSoFar(old(live), m, facts, m.files.Keys - todo, {})
        decreases |todo|
      {
        var p :| p in todo;
        ok, stray := InstallNext(m, facts, staged, p, temps[p], old(live), todo);
        if !ok {
          return;
        }
        todo := todo - {p};
      }
      NothingLeft(m.files.Keys, todo);
      return true, None;
    }

    /** The loop over the removals. */
    method RetireFiles(m: Manifest, facts: Facts, sameFileSystem: bool, ghost before: Tree) returns (ok: bool)
      requires m.files.Keys <= facts.Keys && Disjoint(m)
      requires live == PatchedSoFar(before, m, facts, m.files.Keys, {})
      modifies this`fuse, this`live, this`retired
      ensures ok ==> live == Patched(before, m, facts)
      ensures !ok ==> Midway(before, live, m, facts, None)
    {
      var rest := m.removals.Keys;
      assert m.removals.Keys - rest == {};
      while rest != {}
        invariant rest <= m.removals.Keys
        invariant live == PatchedSoFar(before, m, facts, m.files.Keys, m.removals.Keys - rest)
        decreases |rest|
      {
        var p :| p in rest;
        NextRemoval(before, m, facts, rest, p);
        ok := RetireFile(p, m.removals[p], sameFileSystem);
        if !ok {
          return false;
        }
        rest := rest - {p};
      }
      assert m.removals.Keys - rest == m.removals.Keys;
      return true;
    }

    /** The phases before any replacement: runtime backup, stop, data backup, recovery file. */
    method Prepare(m: Manifest, facts: Facts) returns (ok: bool)
      requires Disjoint(m)
      modifies this`fuse, this`backup, this`active, this`dataSaved, this`recovery
      ensures ok ==> Saved(backup, m) && !active && dataSaved && recovery == Some(Recovery(m, facts, ContentOf(record)))
      ensures !ok ==> recovery == old(recovery)
    {
      ok := BackupRuntimeFiles(m);
      if !ok {
        return;
      }
      ok := Attempt();
      if !ok {
        return;
      }
      active := false;
      ok := Attempt();
      if !ok {
        return;
      }
      dataSaved := true;
      var before := ContentOf(record);
      ok := Attempt();
      if ok {
        recovery := Some(Recovery(m, facts, before));
      }
    }

    /** The second comparison, the install phase and its check against the packaged build. */
    method Replace(m: Manifest, facts: Facts, owners: Owners, staged: Hashes, temps: map<Path, Path>, sameFileSystem: bool, build: Hashes)
      returns (ok: bool, stray: Option<Path>)
      requires Disjoint(m) && FreshNames(temps, live, m) && Saved(backup, m)
      modifies this`fuse, this`live, this`retired
      ensures live == old(live) || Undoable(old(live), live, map[], backup, m, facts, owners, stray)
      ensures stray.Some? ==> stray.value !in old(live) && stray.value !in Paths(m)
      ensures ok ==> stray == None && m.files.Keys <= facts.Keys && live == Patched(old(live), m, facts) && HashesOf(live) == build
    {
      var factsNow, agrees := CompareLiveBaseline(live, m, owners);
      if !agrees || factsNow != facts {
        return false, None;
      }
      FactsCover(live, m, owners);
      ok, stray := InstallAndRetire(m, facts, staged, temps, sameFileSystem);
      MidwayIsUndoable(old(live), live, backup, m, facts, owners, stray);
      if ok && HashesOf(live) != build {
        ok := false;
      }
    }

    /** write_build_record(): the old record is copied first, the new one replaces it at once. */
    method WriteBuildRecord(before: Option<Content>, version: Content, service: Service) returns (ok: bool)
      requires before == ContentOf(record) && savedRecord.None? && asideRecord.None?
      modifies this`fuse, this`record, this`savedRecord
      ensures RecordUndoable(old(record), record, savedRecord, asideRecord)
      ensures record == old(record) || record == Some(RecordFile(version, service))
      ensures ok ==> record == Some(File(version, 6 * 64, service.uid, service.gid))
    {
      if before.Some? {
        ok := Attempt();
        if !ok {
          return;
        }
        savedRecord := ContentOf(record);
      }
      ok := Attempt();
      if !ok {
        return;
      }
      record := Some(RecordFile(version, service));
      ok := Attempt();
    }

    /** `systemctl start`, and the wait until the new version answers. */
    method Start() returns (ok: bool)
      modifies this`fuse, this`active
      ensures ok ==> active
    {
      ok := Attempt();
      if ok {
        active := true;
        ok := Attempt();
      }
    }

    /** run_deploy(). Nothing is replaced before the service is stopped, data/ is saved and the
        recovery file is written; then either the live tree is untouched, or the recipe can undo
        what happened. The build record is replaced only once the packaged tree is live, and
        its copy is taken first. Success means that tree is live and the new record written. */
    method Deploy(m: Manifest, facts: Facts, owners: Owners, staged: Hashes, temps: map<Path, Path>, sameFileSystem: bool, build: Hashes,
                  version: Content, service: Service)
      returns (ok: bool, stray: Option<Path>)
      requires Untouched() && Disjoint(m) && FreshNames(temps, live, m)
      modifies this
      ensures rolledBack == map[] && (live == old(live) || Undoable(old(live), live, rolledBack, backup, m, facts, owners, stray))
      ensures stray.Some? ==> stray.value !in old(live) && stray.value !in Paths(m)
      ensures live != old(live) || record != old(record) ==>
                dataSaved && recovery == Some(Recovery(m, facts, ContentOf(old(record))))
      ensures live != old(live) && HashesOf(live) != build ==> !active
      ensures RecordUndoable(old(record), record, savedRecord, asideRecord)
      ensures record != old(record) ==> record == Some(RecordFile(version, service)) && HashesOf(live) == build
      ensures ok ==> stray == None && m.files.Keys <= facts.Keys && live == Patched(old(live), m, facts) && HashesOf(live) == build
      ensures ok ==> active && record == Some(File(version, 6 * 64, service.uid, service.gid))
    {
      stray := None;
      ok := Prepare(m, facts);
      if !ok {
        return;
      }
      ok, stray := Replace(m, facts, owners, staged, temps, sameFileSystem, build);
      if !ok {
        return;
      }
      ok := WriteBuildRecord(recovery.value.recordBefore, version, service);
      if !ok {
        return;
      }
      ok := Start();
    }

    method InstallAndRetire(m: Manifest, facts: Facts, staged: Hashes, temps: map<Path, Path>, sameFileSystem: bool)
      returns (ok: bool, stray: Option<Path>)
      requires m.files.Keys <= facts.Keys && Disjoint(m) && FreshNames(temps, live, m)
      modifies this`fuse, this`live, this`retired
      ensures Midway(old(live), live, m, facts, stray)
      ensures ok ==> stray == None && live == Patched(old(live), m, facts)
      ensures stray.Some? ==> stray.value !in old(live) && stray.value !in Paths(m)
    {
      ok, stray := InstallFiles(m, facts, staged, temps);
      if ok {
        ok := RetireFiles(m, facts, sameFileSystem, old(live));
        SoFarIsMidway(old(live), m, facts, m.files.Keys, m.removals.Keys);
      }
    }

    /** One line of the recipe. A copy that breaks off may leave anything at its path. */
    method RecipeLine(m: Manifest, facts: Facts, p: Path) returns (ok: bool)
      requires p in Paths(m) && p in facts && Saved(backup, m) && (p in rolledBack ==> Before(m, p).None? && p !in live)
      modifies this`fuse, this`live, this`rolledBack
      ensures OnlyAt(old(live), live, p)
      ensures ok ==> At(live, p) == Recovered(backup, m, facts, p)
      ensures rolledBack == old(rolledBack) || (p in old(live) && rolledBack == old(rolledBack)[p := old(live)[p]])
      ensures p in rolledBack ==> Before(m, p).None? && p !in live
    {
      ok := Attempt();
      if Before(m, p).None? {
        if ok && p in live {
          live, rolledBack := live - {p}, rolledBack[p := live[p]];
        } else if p !in live {
          ok := true;
        }
        return;
      }
      assert PathSaved(backup, m, p);
      if !ok {
        var partial: File := *;
        live := live[p := partial];
        return;
      }
      live := live[p := File(backup[p], facts[p].mode, facts[p].uid, facts[p].gid)];
    }

    method RecipeStep(m: Manifest, facts: Facts, p: Path, ghost original: Tree, ghost owners: Owners, ghost stray: Option<Path>,
                      ghost todo: set<Path>)
      returns (ok: bool)
      requires Undoable(original, live, rolledBack, backup, m, facts, owners, stray) && p in todo && todo <= Paths(m)
      requires Back(original, live, Paths(m) - todo)
      modifies this`fuse, this`live, this`rolledBack
      ensures Undoable(original, live, rolledBack, backup, m, facts, owners, stray)
      ensures ok ==> Back(original, live, Paths(m) - (todo - {p}))
    {
      FactsCover(original, m, owners);
      ghost var was, before := live, rolledBack;
      ok := RecipeLine(m, facts, p);
      StillUndoable(original, was, live, before, rolledBack, backup, m, facts, owners, stray, p);
      if ok {
        LineDone(original, was, live, before, backup, m, facts, owners, stray, todo, p);
      }
    }

    /** The recipe's line for the build record: the copy, as the service's own file with mode
        0600, or moved aside where there was none. Without a copy it fails and changes nothing. */
    method RecordLine(before: Option<Content>, service: Service, ghost original: Option<File>) returns (ok: bool)
      requires before == ContentOf(original) && RecordUndoable(original, record, savedRecord, asideRecord)
      modifies this`fuse, this`record, this`asideRecord
      ensures RecordUndoable(original, record, savedRecord, asideRecord)
      ensures ok ==> record == if original.None? then None else Some(File(original.value.content, 6 * 64, service.uid, service.gid))
      ensures original.Some? && savedRecord.None? ==> !ok && record == original
    {
      if before.Some? && savedRecord.None? {
        return false;
      }
      ok := Attempt();
      if before.None? {
        if ok && record.Some? {
          record, asideRecord := None, record;
        } else if record.None? {
          ok := true;
        }
      } else if ok {
        record := Some(RecordFile(savedRecord.value, service));
      } else {
        var partial: File := *;
        record := Some(partial);
      }
    }

    /** The lines for the program's files. Finished, they have restored the contents, mode and
        owner of every path; broken off anywhere, they can be run again from the start. */
    method RecipeFiles(m: Manifest, facts: Facts, ghost original: Tree, ghost owners: Owners, ghost stray: Option<Path>)
      returns (ok: bool)
      requires Undoable(original, live, rolledBack, backup, m, facts, owners, stray)
      modifies this`fuse, this`live, this`rolledBack
      ensures Undoable(original, live, rolledBack, backup, m, facts, owners, stray)
      ensures ok ==> Restored(original, live, stray)
    {
      var todo := Paths(m);
      NothingLeft(Paths(m), {});
      while todo != {}
        invariant todo <= Paths(m) && Back(original, live, Paths(m) - todo)
        invariant Undoable(original, live, rolledBack, backup, m, facts, owners, stray)
        decreases |todo|
      {
        var p :| p in todo;
        FactsCover(original, m, owners);
        ok := RecipeStep(m, facts, p, original, owners, stray, todo);
        if !ok {
          return;
        }
        todo := todo - {p};
      }
      NothingLeft(Paths(m), todo);
      AllBack(original, live, rolledBack, backup, m, facts, owners, stray);
      return true;
    }

    /** The recipe of the recovery file. `ok`: every file line succeeded, and the tree is the
        original. `recorded`: the record's line succeeded, and its contents are the original's;
        it is the original file exactly when that was the service's own with mode 0600. The
        record's line fails for want of a copy only where the record was never replaced. */
    method Rollback(service: Service, ghost original: Tree, ghost owners: Owners, ghost stray: Option<Path>, ghost originalRecord: Option<File>)
      returns (ok: bool, recorded: bool)
      requires recovery.Some? && recovery.value.recordBefore == ContentOf(originalRecord)
      requires Undoable(original, live, rolledBack, backup, recovery.value.manifest, recovery.value.facts, owners, stray)
      requires RecordUndoable(originalRecord, record, savedRecord, asideRecord)
      modifies this`fuse, this`live, this`rolledBack, this`record, this`asideRecord
      ensures Undoable(original, live, rolledBack, backup, recovery.value.manifest, recovery.value.facts, owners, stray)
      ensures RecordUndoable(originalRecord, record, savedRecord, asideRecord)
      ensures ok ==> Restored(original, live, stray)
      ensures recorded ==>
                && ContentOf(record) == ContentOf(originalRecord)
                && (record == originalRecord <==>
                      (originalRecord.Some? ==> originalRecord.value == RecordFile(originalRecord.value.content, service)))
      ensures originalRecord.Some? && savedRecord.None? ==> !recorded && record == originalRecord
    {
      recorded := false;
      ok := RecipeFiles(recovery.value.manifest, recovery.value.facts, original, owners, stray);
      if ok {
        recorded := RecordLine(recovery.value.recordBefore, service, originalRecord);
      }
    }
  }
}
