/** The effectful half of `download_gif` (src/main.rs:131-147) and its
    driver `download` (src/main.rs:97-103): create the destination
    directory, skip an item whose destination already exists, otherwise
    fetch the source asset and write it. */
module Download {
  import opened Wrappers
  import opened Giphy
  import opened Planning
  import Pagination

  type Bytes = seq<bv8>

  /** The asset server: the body each source URL answers with. A URL outside
      the map is one whose GET or body read fails. */
  type Assets = map<Url, Bytes>

  /** The filesystem as a value: file contents by path, and directories. */
  datatype Disk = Disk(files: map<Path, Bytes>, dirs: set<Path>)

  /** `Path::exists`: a file or a directory is there. */
  predicate Exists(d: Disk, p: Path) {
    p in d.files || p in d.dirs
  }

  /** The directories `create_dir_all(dir)` guarantees: `dir` and every
      ancestor of it. */
  function Ancestors(dir: Path): (a: set<Path>)
    ensures dir != [] ==> dir in a
    ensures forall i :: 1 <= i <= |dir| ==> dir[..i] in a
    ensures forall q :: q in a ==> 1 <= |q| <= |dir| && q == dir[..|q|]
  {
    assert dir != [] ==> dir[..|dir|] == dir;
    set i | 1 <= i <= |dir| :: dir[..i]
  }

  /** The outcome of one item: the new disk, `download_gif`'s result, and
      the asset URLs it requested. */
  datatype Step = Step(disk: Disk, result: Result<(), Error>, fetches: seq<Url>)

  /** The effectful tail of `download_gif` once planning succeeded: the
      directory is made; an existing destination is left alone and nothing
      is fetched; otherwise exactly one fetch, and on success only the
      destination changes, to the fetched bytes. */
  function Apply(d: Disk, assets: Assets, p: Plan): (s: Step)
    requires |p.path| > |p.dir|
    ensures s.disk.dirs == d.dirs + Ancestors(p.dir)
    ensures Exists(d, p.path) ==>
      s.fetches == [] && s.disk.files == d.files && s.result == Success(())
    ensures !Exists(d, p.path) ==> s.fetches == [p.sourceUrl]
    ensures !Exists(d, p.path) && p.sourceUrl in assets ==>
      s.disk.files == d.files[p.path := assets[p.sourceUrl]] && s.result == Success(())
    ensures !Exists(d, p.path) && p.sourceUrl !in assets ==>
      s.disk.files == d.files && s.result == Failure(Transport)
  {
    var made := d.(dirs := d.dirs + Ancestors(p.dir));
    NotAnAncestor(p.path, p.dir);
    if Exists(made, p.path) then Step(made, Success(()), [])
    else if p.sourceUrl !in assets then Step(made, Failure(Transport), [p.sourceUrl])
    else Step(made.(files := made.files[p.path := assets[p.sourceUrl]]), Success(()), [p.sourceUrl])
  }

  /** The specification of `download_gif` for one item. A planning failure
      happens before any effect: the disk is untouched and nothing is
      fetched. */
  function DownloadStep(d: Disk, assets: Assets, gif: Gif, base: Path): (s: Step)
    ensures PlanGif(gif, base).Failure? ==> s == Step(d, Failure(PlanGif(gif, base).error), [])
  {
    match PlanGif(gif, base)
    case Failure(e) => Step(d, Failure(e), [])
    case Success(p) => Apply(d, assets, p)
  }

  /** What `download` leaves behind: the final disk and every asset URL
      requested, item after item. */
  datatype Run = Run(disk: Disk, fetches: seq<Url>)

  /** The specification of `download`: every item in turn, each item's
      failure dropped. */
  function DownloadAll(d: Disk, assets: Assets, gifs: seq<Gif>, base: Path): (r: Run)
    ensures |r.fetches| <= |gifs|
    decreases |gifs|
  {
    if gifs == [] then Run(d, [])
    else
      var s := DownloadStep(d, assets, gifs[0], base);
      var rest := DownloadAll(s.disk, assets, gifs[1..], base);
      Run(rest.disk, s.fetches + rest.fetches)
  }

  /** The local filesystem, updated in place. */
  class FileSystem {
    var files: map<Path, Bytes>
    var dirs: set<Path>

    function State(): Disk
      reads this
    {
      Disk(files, dirs)
    }

    constructor (d: Disk)
      ensures State() == d
    {
      files := d.files;
      dirs := d.dirs;
    }

    /** `fs::create_dir_all`. */
    method CreateDirAll(dir: Path)
      modifies this
      ensures files == old(files) && dirs == old(dirs) + Ancestors(dir)
    {
      dirs := dirs + Ancestors(dir);
    }

    /** `Path::exists`. */
    predicate PathExists(p: Path)
      reads this
      ensures PathExists(p) <==> p in files || p in dirs
    {
      Exists(State(), p)
    }

    /** `File::create` followed by `write_all`: `p` holds exactly `data`. */
    method WriteFile(p: Path, data: Bytes)
      modifies this
      ensures files == old(files)[p := data] && dirs == old(dirs)
    {
      files := files[p := data];
    }
  }

  /** `download_gif`: plan first (no effect on failure), then create the
      directory, return early when the destination exists, else fetch and
      write. Returns the asset URLs requested. */
  method DownloadGif(fs: FileSystem, assets: Assets, gif: Gif, base: Path) returns (r: Result<(), Error>, fetches: seq<Url>)
    modifies fs
    ensures Step(fs.State(), r, fetches) == DownloadStep(old(fs.State()), assets, gif, base)
  {
    fetches := [];
    var plan := PlanGif(gif, base);
    if plan.Failure? {
      return Failure(plan.error), fetches;
    }
    var p := plan.value;
    fs.CreateDirAll(p.dir);

    // Check if file exists
    if fs.PathExists(p.path) {
      return Success(()), fetches;
    }

    // Download
    fetches := [p.sourceUrl];
    if p.sourceUrl !in assets {
      return Failure(Transport), fetches;
    }
    var video := assets[p.sourceUrl];
    fs.WriteFile(p.path, video);
    r := Success(());
  }

  /** `download`: run `download_gif` on every item, drop each result, and
      succeed. */
  method Download(fs: FileSystem, assets: Assets, gifs: seq<Gif>, base: Path) returns (r: Result<(), Error>, fetches: seq<Url>)
    modifies fs
    ensures r == Success(())
    ensures Run(fs.State(), fetches) == DownloadAll(old(fs.State()), assets, gifs, base)
  {
    fetches := [];
    ghost var start := fs.State();
    ghost var goal := DownloadAll(start, assets, gifs, base);
    var i := 0;
    while i < |gifs|
      invariant 0 <= i <= |gifs|
      invariant goal.disk == DownloadAll(fs.State(), assets, gifs[i..], base).disk
      invariant goal.fetches == fetches + DownloadAll(fs.State(), assets, gifs[i..], base).fetches
    {
      ghost var before := fs.State();
      var _, more := DownloadGif(fs, assets, gifs[i], base);
      DownloadAllAdvance(goal, before, fs.State(), assets, gifs, i, base, fetches, more);
      fetches := fetches + more;
      i := i + 1;
    }
    assert gifs[i..] == [];
    assert fetches + [] == fetches;
    r := Success(());
  }

  /** One turn of `download`'s loop keeps "what is left to do yields the
      run's result". */
  lemma DownloadAllAdvance(goal: Run, d: Disk, d': Disk, assets: Assets, gifs: seq<Gif>, i: nat, base: Path,
                           fetches: seq<Url>, more: seq<Url>)
    requires i < |gifs|
    requires goal.disk == DownloadAll(d, assets, gifs[i..], base).disk
    requires goal.fetches == fetches + DownloadAll(d, assets, gifs[i..], base).fetches
    requires d' == DownloadStep(d, assets, gifs[i], base).disk && more == DownloadStep(d, assets, gifs[i], base).fetches
    ensures goal.disk == DownloadAll(d', assets, gifs[i + 1..], base).disk
    ensures goal.fetches == (fetches + more) + DownloadAll(d', assets, gifs[i + 1..], base).fetches
  {
    assert gifs[i..][0] == gifs[i] && gifs[i..][1..] == gifs[i + 1..];
    var rest := DownloadAll(d', assets, gifs[i + 1..], base);
    assert fetches + (more + rest.fetches) == (fetches + more) + rest.fetches;
  }

  /** `main`: fetch the whole feed, and only then download. A pagination
      failure is returned before any asset is requested or any file
      touched. */
  method Archive(fs: FileSystem, feed: Pagination.Feed, assets: Assets, member: U64, base: Path, ghost bound: nat)
    returns (r: Result<(), Error>, pageRequests: seq<Url>, fetches: seq<Url>)
    requires Pagination.Crawl(feed, Pagination.SeedUrl(member), bound).Finished?
    modifies fs
    ensures var w := Pagination.Crawl(feed, Pagination.SeedUrl(member), bound);
      && pageRequests == w.requests
      && (w.result.Failure? ==> r == w.result.PropagateFailure() && fetches == [] && fs.State() == old(fs.State()))
      && (w.result.Success? ==>
            r == Success(()) && Run(fs.State(), fetches) == DownloadAll(old(fs.State()), assets, w.result.value, base))
  {
    var gifs;
    gifs, pageRequests := Pagination.Gifs(feed, member, bound);
    if gifs.Failure? {
      return gifs.PropagateFailure(), pageRequests, [];
    }
    r, fetches := Download(fs, assets, gifs.value, base);
  }

  // ---------------------------------------------------------------------
  // Resumability: a second run fetches nothing and changes nothing.

  /** `d'` keeps every directory of `d`, and every file of `d` with the
      same contents. */
  predicate Grows(d: Disk, d': Disk) {
    && d.dirs <= d'.dirs
    && forall p :: p in d.files ==> p in d'.files && d'.files[p] == d.files[p]
  }

  /** Every item of `gifs` that plans has its directories made and its
      destination present on `d`. */
  predicate Covered(d: Disk, gifs: seq<Gif>, base: Path) {
    forall i :: 0 <= i < |gifs| && PlanGif(gifs[i], base).Success? ==>
      Ancestors(PlanGif(gifs[i], base).value.dir) <= d.dirs && Exists(d, PlanGif(gifs[i], base).value.path)
  }

  /** Every item that plans can have its asset fetched. */
  predicate Fetchable(assets: Assets, gifs: seq<Gif>, base: Path) {
    forall i :: 0 <= i < |gifs| && PlanGif(gifs[i], base).Success? ==> PlanGif(gifs[i], base).value.sourceUrl in assets
  }

  /** No item's step deletes or rewrites a file or removes a directory. */
  lemma StepGrows(d: Disk, assets: Assets, gif: Gif, base: Path)
    ensures Grows(d, DownloadStep(d, assets, gif, base).disk)
  {
  }

  /** `download` never deletes a directory, and never deletes or overwrites
      a file that was there before the run. */
  lemma {:induction false} DownloadAllGrows(d: Disk, assets: Assets, gifs: seq<Gif>, base: Path)
    ensures Grows(d, DownloadAll(d, assets, gifs, base).disk)
    decreases |gifs|
  {
    if gifs != [] {
      var s := DownloadStep(d, assets, gifs[0], base);
      StepGrows(d, assets, gifs[0], base);
      DownloadAllGrows(s.disk, assets, gifs[1..], base);
    }
  }

  /** Failure isolation: an item whose asset can be fetched ends the run
      with its directories and destination present, whatever happens to
      the other items (their planning or fetches failing included). */
  lemma {:induction false} DownloadAllCoversItem(d: Disk, assets: Assets, gifs: seq<Gif>, i: nat, base: Path)
    requires i < |gifs| && PlanGif(gifs[i], base).Success? && PlanGif(gifs[i], base).value.sourceUrl in assets
    ensures var p := PlanGif(gifs[i], base).value;
      var end := DownloadAll(d, assets, gifs, base).disk;
      Ancestors(p.dir) <= end.dirs && Exists(end, p.path)
    decreases i
  {
    var s := DownloadStep(d, assets, gifs[0], base);
    if i == 0 {
      CoversFirst(d, assets, gifs[0], gifs[1..], base);
    } else {
      assert gifs[1..][i - 1] == gifs[i];
      assert DownloadAll(d, assets, gifs, base).disk == DownloadAll(s.disk, assets, gifs[1..], base).disk;
      DownloadAllCoversItem(s.disk, assets, gifs[1..], i - 1, base);
    }
  }

  /** The first item, when its asset can be fetched, stays present to the
      end of the run. */
  lemma CoversFirst(d: Disk, assets: Assets, g: Gif, tail: seq<Gif>, base: Path)
    requires PlanGif(g, base).Success? && PlanGif(g, base).value.sourceUrl in assets
    ensures var p := PlanGif(g, base).value;
      var end := DownloadAll(DownloadStep(d, assets, g, base).disk, assets, tail, base).disk;
      Ancestors(p.dir) <= end.dirs && Exists(end, p.path)
  {
    var s := DownloadStep(d, assets, g, base);
    StepCovers(d, assets, g, base);
    DownloadAllGrows(s.disk, assets, tail, base);
  }

  /** After a run in which every asset could be fetched, every item that
      plans has its destination present. */
  lemma DownloadAllCovers(d: Disk, assets: Assets, gifs: seq<Gif>, base: Path)
    requires Fetchable(assets, gifs, base)
    ensures Covered(DownloadAll(d, assets, gifs, base).disk, gifs, base)
  {
    forall i | 0 <= i < |gifs| && PlanGif(gifs[i], base).Success?
      ensures Ancestors(PlanGif(gifs[i], base).value.dir) <= DownloadAll(d, assets, gifs, base).disk.dirs
      ensures Exists(DownloadAll(d, assets, gifs, base).disk, PlanGif(gifs[i], base).value.path)
    {
      DownloadAllCoversItem(d, assets, gifs, i, base);
    }
  }

  /** One item whose asset can be fetched ends with its destination present. */
  lemma StepCovers(d: Disk, assets: Assets, gif: Gif, base: Path)
    requires PlanGif(gif, base).Success? && PlanGif(gif, base).value.sourceUrl in assets
    ensures var p := PlanGif(gif, base).value;
      var s := DownloadStep(d, assets, gif, base);
      Ancestors(p.dir) <= s.disk.dirs && Exists(s.disk, p.path)
  {
  }

  /** On a disk that already holds every item, `download` requests nothing
      and changes nothing. */
  lemma {:induction false} DownloadAllStable(d: Disk, assets: Assets, gifs: seq<Gif>, base: Path)
    requires Covered(d, gifs, base)
    ensures DownloadAll(d, assets, gifs, base) == Run(d, [])
    decreases |gifs|
  {
    if gifs != [] {
      assert DownloadStep(d, assets, gifs[0], base).disk == d;
      assert Covered(d, gifs[1..], base) by {
        forall i | 0 <= i < |gifs[1..]| && PlanGif(gifs[1..][i], base).Success?
          ensures Ancestors(PlanGif(gifs[1..][i], base).value.dir) <= d.dirs
          ensures Exists(d, PlanGif(gifs[1..][i], base).value.path)
        {
          assert gifs[1..][i] == gifs[i + 1];
        }
      }
      DownloadAllStable(d, assets, gifs[1..], base);
    }
  }

  /** Resumability: when every asset could be fetched, running `download`
      a second time over the same items requests no asset and leaves the
      disk exactly as the first run left it. */
  lemma DownloadTwice(d: Disk, assets: Assets, gifs: seq<Gif>, base: Path)
    requires Fetchable(assets, gifs, base)
    ensures var first := DownloadAll(d, assets, gifs, base);
      DownloadAll(first.disk, assets, gifs, base) == Run(first.disk, [])
  {
    DownloadAllCovers(d, assets, gifs, base);
    DownloadAllStable(DownloadAll(d, assets, gifs, base).disk, assets, gifs, base);
  }

  // ---------------------------------------------------------------------
  // Order independence: items with distinct destinations commute.

  /** The files after `Apply`, given whether the destination was present. */
  function Written(files: map<Path, Bytes>, assets: Assets, p: Plan, present: bool): map<Path, Bytes> {
    if !present && p.sourceUrl in assets then files[p.path := assets[p.sourceUrl]] else files
  }

  lemma ApplyShape(d: Disk, assets: Assets, p: Plan)
    requires |p.path| > |p.dir|
    ensures Apply(d, assets, p).disk == Disk(Written(d.files, assets, p, Exists(d, p.path)), d.dirs + Ancestors(p.dir))
    ensures Apply(d, assets, p).fetches == if Exists(d, p.path) then [] else [p.sourceUrl]
  {
  }

  /** Another item's step does not change whether this destination exists. */
  lemma ApplyKeepsExists(d: Disk, assets: Assets, p: Plan, q: Path)
    requires |p.path| > |p.dir| && |q| > |p.dir| && q != p.path
    ensures Exists(Apply(d, assets, p).disk, q) == Exists(d, q)
  {
    ApplyShape(d, assets, p);
    NotAnAncestor(q, p.dir);
  }

  lemma WrittenCommute(files: map<Path, Bytes>, assets: Assets, p1: Plan, p2: Plan, e1: bool, e2: bool)
    requires p1.path != p2.path
    ensures Written(Written(files, assets, p1, e1), assets, p2, e2) == Written(Written(files, assets, p2, e2), assets, p1, e1)
  {
  }

  /** Two planned items whose destinations differ leave the same disk, and
      request the same assets, in either order. */
  lemma ApplyCommute(d: Disk, assets: Assets, p1: Plan, p2: Plan)
    requires p1.path != p2.path
    requires |p1.path| == |p2.path| == |p1.dir| + 1 == |p2.dir| + 1
    ensures var s1 := Apply(d, assets, p1);
      var s12 := Apply(s1.disk, assets, p2);
      var s2 := Apply(d, assets, p2);
      var s21 := Apply(s2.disk, assets, p1);
      s12.disk == s21.disk && multiset(s1.fetches + s12.fetches) == multiset(s2.fetches + s21.fetches)
  {
    var e1, e2 := Exists(d, p1.path), Exists(d, p2.path);
    var s1 := Apply(d, assets, p1);
    var s2 := Apply(d, assets, p2);
    ApplyShape(d, assets, p1);
    ApplyShape(d, assets, p2);
    ApplyKeepsExists(d, assets, p1, p2.path);
    ApplyKeepsExists(d, assets, p2, p1.path);
    ApplyShape(s1.disk, assets, p2);
    ApplyShape(s2.disk, assets, p1);
    WrittenCommute(d.files, assets, p1, p2, e1, e2);
    assert d.dirs + Ancestors(p1.dir) + Ancestors(p2.dir) == d.dirs + Ancestors(p2.dir) + Ancestors(p1.dir);
  }

  /** Items whose destinations differ can be downloaded in either order:
      this is why `download` may run them concurrently and unordered. */
  lemma StepsCommute(d: Disk, assets: Assets, g1: Gif, g2: Gif, base: Path)
    requires PlanGif(g1, base).Success? && PlanGif(g2, base).Success? ==>
      PlanGif(g1, base).value.path != PlanGif(g2, base).value.path
    ensures var s1 := DownloadStep(d, assets, g1, base);
      var s12 := DownloadStep(s1.disk, assets, g2, base);
      var s2 := DownloadStep(d, assets, g2, base);
      var s21 := DownloadStep(s2.disk, assets, g1, base);
      s12.disk == s21.disk && multiset(s1.fetches + s12.fetches) == multiset(s2.fetches + s21.fetches)
  {
    if PlanGif(g1, base).Success? && PlanGif(g2, base).Success? {
      ApplyCommute(d, assets, PlanGif(g1, base).value, PlanGif(g2, base).value);
    }
  }

  /** `gifs` with the items at `i` and `i + 1` exchanged. */
  function SwapAdjacent(gifs: seq<Gif>, i: nat): (r: seq<Gif>)
    requires i + 1 < |gifs|
    ensures |r| == |gifs| && r[i] == gifs[i + 1] && r[i + 1] == gifs[i]
    ensures forall k :: 0 <= k < |gifs| && k != i && k != i + 1 ==> r[k] == gifs[k]
  {
    gifs[..i] + [gifs[i + 1], gifs[i]] + gifs[i + 2..]
  }

  /** `download` over a list with a first item: that item, then the rest. */
  lemma DownloadAllCons(d: Disk, assets: Assets, g: Gif, tail: seq<Gif>, base: Path)
    ensures var s := DownloadStep(d, assets, g, base);
      var rest := DownloadAll(s.disk, assets, tail, base);
      DownloadAll(d, assets, [g] + tail, base) == Run(rest.disk, s.fetches + rest.fetches)
  {
    assert ([g] + tail)[0] == g && ([g] + tail)[1..] == tail;
  }

  /** Exchanging the first two items, when their destinations differ. */
  lemma SwapFront(d: Disk, assets: Assets, g0: Gif, g1: Gif, tail: seq<Gif>, base: Path)
    requires PlanGif(g0, base).Success? && PlanGif(g1, base).Success? ==>
      PlanGif(g0, base).value.path != PlanGif(g1, base).value.path
    ensures DownloadAll(d, assets, [g1] + ([g0] + tail), base).disk == DownloadAll(d, assets, [g0] + ([g1] + tail), base).disk
    ensures multiset(DownloadAll(d, assets, [g1] + ([g0] + tail), base).fetches) == multiset(DownloadAll(d, assets, [g0] + ([g1] + tail), base).fetches)
  {
    var s0 := DownloadStep(d, assets, g0, base);
    var s1 := DownloadStep(d, assets, g1, base);
    StepsCommute(d, assets, g0, g1, base);
    var s01 := DownloadStep(s0.disk, assets, g1, base);
    var s10 := DownloadStep(s1.disk, assets, g0, base);
    var rest := DownloadAll(s01.disk, assets, tail, base);
    DownloadAllCons(d, assets, g0, [g1] + tail, base);
    DownloadAllCons(s0.disk, assets, g1, tail, base);
    DownloadAllCons(d, assets, g1, [g0] + tail, base);
    DownloadAllCons(s1.disk, assets, g0, tail, base);
    SwapFrontCore(DownloadAll(d, assets, [g0] + ([g1] + tail), base), DownloadAll(d, assets, [g1] + ([g0] + tail), base),
      s0.fetches, s01.fetches, s1.fetches, s10.fetches, rest);
  }

  lemma SwapFrontCore(x: Run, y: Run, f0: seq<Url>, f01: seq<Url>, f1: seq<Url>, f10: seq<Url>, rest: Run)
    requires x == Run(rest.disk, f0 + (f01 + rest.fetches)) && y == Run(rest.disk, f1 + (f10 + rest.fetches))
    requires multiset(f0 + f01) == multiset(f1 + f10)
    ensures y.disk == x.disk && multiset(y.fetches) == multiset(x.fetches)
  {
    MultisetRegroup(f0, f01, f1, f10, rest.fetches);
  }

  lemma MultisetRegroup(a: seq<Url>, b: seq<Url>, c: seq<Url>, d: seq<Url>, e: seq<Url>)
    requires multiset(a + b) == multiset(c + d)
    ensures multiset(a + (b + e)) == multiset(c + (d + e))
  {
    assert a + (b + e) == (a + b) + e;
    assert c + (d + e) == (c + d) + e;
  }

  /** Order independence for a whole run: exchanging two neighbouring items
      whose destinations differ leaves `download` with the same disk and
      the same asset requests, possibly in another order. */
  lemma {:induction false} DownloadAllSwap(d: Disk, assets: Assets, gifs: seq<Gif>, i: nat, base: Path)
    requires i + 1 < |gifs|
    requires PlanGif(gifs[i], base).Success? && PlanGif(gifs[i + 1], base).Success? ==>
      PlanGif(gifs[i], base).value.path != PlanGif(gifs[i + 1], base).value.path
    ensures DownloadAll(d, assets, SwapAdjacent(gifs, i), base).disk == DownloadAll(d, assets, gifs, base).disk
    ensures multiset(DownloadAll(d, assets, SwapAdjacent(gifs, i), base).fetches) == multiset(DownloadAll(d, assets, gifs, base).fetches)
    decreases i
  {
    var swapped := SwapAdjacent(gifs, i);
    if i == 0 {
      assert gifs == [gifs[0]] + ([gifs[1]] + gifs[2..]);
      assert swapped == [gifs[1]] + ([gifs[0]] + gifs[2..]);
      SwapFront(d, assets, gifs[0], gifs[1], gifs[2..], base);
    } else {
      var s := DownloadStep(d, assets, gifs[0], base);
      assert gifs == [gifs[0]] + gifs[1..];
      assert swapped == [gifs[0]] + SwapAdjacent(gifs[1..], i - 1);
      DownloadAllSwap(s.disk, assets, gifs[1..], i - 1, base);
      DownloadAllCons(d, assets, gifs[0], gifs[1..], base);
      DownloadAllCons(d, assets, gifs[0], SwapAdjacent(gifs[1..], i - 1), base);
    }
  }

  /** A planned file path is one component deeper than any planned
      directory, so creating a directory never makes a file path exist. */
  lemma NotAnAncestor(path: Path, dir: Path)
    requires |path| > |dir|
    ensures path !in Ancestors(dir)
  {
  }
}
