/**
  The batch upload script (scripts/batch-upload-to-oss.js). It puts the three
  static assets found in `public/` and every file of every artwork directory
  under `src/content/images/pixiv/` into the object store, one awaited put
  after another; the first failed put aborts the run. The filesystem is an
  abstract value read once; the store is an object whose `Put` overwrites a
  key and whose outcome is decided by an oracle on the attempt number.
*/
module Upload {
  import Oss

  /** The static assets, in the order the script processes them. */
  const Assets: seq<string> := ["bg.jpg", "dao.png", "se.png"]

  /** The key directories the script writes inline, without a trailing `/`. */
  const OssAssetsDir: string := "sesese-se/assets"
  const OssArtworksDir: string := "sesese-se/artworks"

  /** A local file: directly under `public/`, or inside an artwork directory. */
  datatype LocalPath = PublicFile(name: string) | ArtworkFile(dir: string, file: string)

  /**
    The filesystem as the script sees it: the names present directly under
    `public/`, whether the artworks source directory exists, what
    `readdirSync` lists in it, and, for the entries that are directories,
    what `readdirSync` lists in each.
  */
  datatype Fs = Fs(
    publicFiles: set<string>,
    sourceDirExists: bool,
    sourceEntries: seq<string>,
    dirs: map<string, seq<string>>)

  /** `statSync(path).isDirectory()` for an entry of the source directory. */
  predicate IsDirectory(fs: Fs, entry: string) {
    entry in fs.dirs
  }

  /** One `client.put(key, localFile)`. */
  datatype Request = Request(key: string, from: LocalPath)

  predicate Distinct<T(==)>(s: seq<T>) {
    forall i, j :: 0 <= i < j < |s| ==> s[i] != s[j]
  }

  /**
    What `readdirSync` guarantees: names are unique within a directory and
    never contain `/`.
  */
  predicate WellFormed(fs: Fs) {
    && Distinct(fs.sourceEntries)
    && (forall e :: e in fs.sourceEntries ==> '/' !in e)
    && (forall d :: d in fs.dirs ==> Distinct(fs.dirs[d]))
  }

  /** The key a local file is put at. */
  function KeyOf(from: LocalPath): string {
    match from
    case PublicFile(name) => Oss.AssetPath(name)
    case ArtworkFile(dir, file) => Oss.ArtworkPath(dir, file)
  }

  /** The put of one asset: none when the file is missing. */
  function AssetStep(fs: Fs, name: string): seq<Request> {
    if name in fs.publicFiles then [Request(Oss.AssetPath(name), PublicFile(name))] else []
  }

  /** The puts of the asset loop over `names`, in order. */
  function AssetPlanOf(fs: Fs, names: seq<string>): seq<Request>
    decreases |names|
  {
    if names == [] then []
    else AssetPlanOf(fs, names[..|names| - 1]) + AssetStep(fs, names[|names| - 1])
  }

  /** The puts of the inner loop over the files of directory `dir`. */
  function DirPlan(dir: string, files: seq<string>): (r: seq<Request>)
    ensures |r| == |files|
    ensures forall k :: 0 <= k < |files| ==> r[k] == Request(Oss.ArtworkPath(dir, files[k]), ArtworkFile(dir, files[k]))
  {
    seq(|files|, k requires 0 <= k < |files| => Request(Oss.ArtworkPath(dir, files[k]), ArtworkFile(dir, files[k])))
  }

  /** The puts of the outer loop over `entries`: an entry that is not a directory adds nothing. */
  function ArtworkPlanOf(fs: Fs, entries: seq<string>): seq<Request>
    decreases |entries|
  {
    if entries == [] then []
    else
      var entry := entries[|entries| - 1];
      ArtworkPlanOf(fs, entries[..|entries| - 1])
        + (if IsDirectory(fs, entry) then DirPlan(entry, fs.dirs[entry]) else [])
  }

  /** uploadAssets. */
  function AssetPlan(fs: Fs): seq<Request> {
    AssetPlanOf(fs, Assets)
  }

  /** uploadArtworks: nothing when the source directory is missing. */
  function ArtworkPlan(fs: Fs): seq<Request> {
    if fs.sourceDirExists then ArtworkPlanOf(fs, fs.sourceEntries) else []
  }

  /** main: the assets first, then the artworks. */
  function UploadPlan(fs: Fs): seq<Request> {
    AssetPlan(fs) + ArtworkPlan(fs)
  }

  /** The number of leading puts of `plan` that succeed when the first is attempt `n`. */
  function Succeeded(plan: seq<Request>, n: nat, accepts: nat -> bool): (k: nat)
    ensures k <= |plan|
    ensures forall m :: n <= m < n + k ==> accepts(m)
    ensures k < |plan| ==> !accepts(n + k)
    decreases |plan|
  {
    if plan == [] || !accepts(n) then 0 else 1 + Succeeded(plan[1..], n + 1, accepts)
  }

  /** The store contents after the puts of `plan` succeeded in order. */
  function Apply(objects: map<string, LocalPath>, plan: seq<Request>): map<string, LocalPath>
    decreases |plan|
  {
    if plan == [] then objects
    else
      var last := plan[|plan| - 1];
      Apply(objects, plan[..|plan| - 1])[last.key := last.from]
  }

  function PlanKeys(plan: seq<Request>): set<string> {
    set p | p in plan :: p.key
  }

  /**
    Running `plan` from request log `log0` and contents `objects0` ended with
    success flag `ok`, log `log` and contents `objects`: the puts were issued
    in plan order up to and including the first failure, only successful
    puts changed the store, and `ok` says whether all of them succeeded.
  */
  ghost predicate Executed(log0: seq<Request>, objects0: map<string, LocalPath>, plan: seq<Request>,
                           accepts: nat -> bool, ok: bool, log: seq<Request>, objects: map<string, LocalPath>)
  {
    var k := Succeeded(plan, |log0|, accepts);
    && ok == (k == |plan|)
    && log == log0 + plan[..if ok then k else k + 1]
    && objects == Apply(objects0, plan[..k])
  }

  /** The object store client: a map from key to the local file last put there. */
  class Store {
    var objects: map<string, LocalPath>
    /** Every put issued, in order, whether it succeeded or not. */
    var log: seq<Request>
    /** Whether the put with the given attempt number succeeds. */
    const accepts: nat -> bool

    constructor (initial: map<string, LocalPath>, outcome: nat -> bool)
      ensures objects == initial && log == [] && accepts == outcome
    {
      objects := initial;
      log := [];
      accepts := outcome;
    }

    /** `client.put(key, file)`: an unconditional overwrite, or a failure. */
    method Put(key: string, from: LocalPath) returns (ok: bool)
      modifies this`objects, this`log
      ensures log == old(log) + [Request(key, from)]
      ensures ok == accepts(|old(log)|)
      ensures objects == if ok then old(objects)[key := from] else old(objects)
    {
      ok := accepts(|log|);
      log := log + [Request(key, from)];
      if ok {
        objects := objects[key := from];
      }
    }
  }

  /** uploadFile: the put, with its error passed on to the caller. */
  method UploadFile(store: Store, filePath: LocalPath, ossPath: string) returns (ok: bool)
    modifies store`objects, store`log
    ensures store.log == old(store.log) + [Request(ossPath, filePath)]
    ensures ok == store.accepts(|old(store.log)|)
    ensures store.objects == if ok then old(store.objects)[ossPath := filePath] else old(store.objects)
  {
    ok := store.Put(ossPath, filePath);
  }

  /** uploadAssets: puts each asset present in `public/`, skipping missing ones. */
  method UploadAssets(fs: Fs, store: Store) returns (ok: bool)
    modifies store`objects, store`log
    ensures Executed(old(store.log), old(store.objects), AssetPlan(fs), store.accepts,
                     ok, store.log, store.objects)
  {
    ok := UploadPublicFiles(fs, store, Assets);
  }

  /** The asset loop over `assets`; missing files are skipped. */
  method UploadPublicFiles(fs: Fs, store: Store, assets: seq<string>) returns (ok: bool)
    modifies store`objects, store`log
    ensures Executed(old(store.log), old(store.objects), AssetPlanOf(fs, assets), store.accepts,
                     ok, store.log, store.objects)
  {
    ghost var log0, objects0 := store.log, store.objects;
    ghost var acc := store.accepts;
    ExecutedSuccess(log0, objects0, [], acc);
    for i := 0 to |assets|
      invariant Executed(log0, objects0, AssetPlanOf(fs, assets[..i]), acc, true, store.log, store.objects)
    {
      var asset := assets[i];
      ghost var done := AssetPlanOf(fs, assets[..i]);
      ghost var log1, objects1 := store.log, store.objects;
      AssetPlanStep(fs, assets, i);
      AssetPlanPrefix(fs, assets, i + 1);
      if asset in fs.publicFiles {
        ghost var x := Request(Oss.AssetPath(asset), PublicFile(asset));
        var success := UploadFile(store, PublicFile(asset), Oss.AssetPath(asset));
        ExecutedOne(log1, objects1, x, acc, success, store.log, store.objects);
        ExecutedInSequence(log0, objects0, done, log1, objects1, [x], acc, success, store.log, store.objects);
        if !success {
          ExecutedPrefix(log0, objects0, done + [x], AssetPlanOf(fs, assets), acc, store.log, store.objects);
          return false;
        }
      } else {
        assert AssetPlanOf(fs, assets[..i + 1]) == done by {
          assert done + [] == done;
        }
      }
    }
    assert AssetPlanOf(fs, assets[..|assets|]) == AssetPlanOf(fs, assets) by {
      AssetPlanPrefix(fs, assets, |assets|);
    }
    ok := true;
  }

  /** The inner loop of uploadArtworks: every file of one artwork directory. */
  method UploadDirectory(store: Store, dir: string, files: seq<string>) returns (ok: bool)
    modifies store`objects, store`log
    ensures Executed(old(store.log), old(store.objects), DirPlan(dir, files), store.accepts,
                     ok, store.log, store.objects)
  {
    ghost var log0, objects0 := store.log, store.objects;
    ghost var acc := store.accepts;
    ExecutedSuccess(log0, objects0, [], acc);
    for j := 0 to |files|
      invariant Executed(log0, objects0, DirPlan(dir, files[..j]), acc, true, store.log, store.objects)
    {
      var file := files[j];
      ghost var done := DirPlan(dir, files[..j]);
      ghost var log1, objects1 := store.log, store.objects;
      ghost var x := Request(Oss.ArtworkPath(dir, file), ArtworkFile(dir, file));
      DirPlanStep(dir, files, j);
      var success := UploadFile(store, ArtworkFile(dir, file), Oss.ArtworkPath(dir, file));
      ExecutedOne(log1, objects1, x, acc, success, store.log, store.objects);
      ExecutedInSequence(log0, objects0, done, log1, objects1, [x], acc, success, store.log, store.objects);
      if !success {
        ExecutedPrefix(log0, objects0, done + [x], DirPlan(dir, files), acc, store.log, store.objects);
        return false;
      }
    }
    assert files[..|files|] == files;
    ok := true;
  }

  /** uploadArtworks: every file of every directory entry, without any filter. */
  method UploadArtworks(fs: Fs, store: Store) returns (ok: bool)
    modifies store`objects, store`log
    ensures Executed(old(store.log), old(store.objects), ArtworkPlan(fs), store.accepts,
                     ok, store.log, store.objects)
    ensures !fs.sourceDirExists ==> ok && store.log == old(store.log) && store.objects == old(store.objects)
  {
    ghost var log0, objects0 := store.log, store.objects;
    ghost var acc := store.accepts;
    ExecutedSuccess(log0, objects0, [], acc);
    if !fs.sourceDirExists {
      return true;
    }
    var entries := fs.sourceEntries;
    for i := 0 to |entries|
      invariant Executed(log0, objects0, ArtworkPlanOf(fs, entries[..i]), acc, true, store.log, store.objects)
    {
      var entry := entries[i];
      ghost var before := ArtworkPlanOf(fs, entries[..i]);
      ghost var log1, objects1 := store.log, store.objects;
      ArtworkPlanStep(fs, entries, i);
      if IsDirectory(fs, entry) {
        var dirOk := UploadDirectory(store, entry, fs.dirs[entry]);
        ExecutedInSequence(log0, objects0, before, log1, objects1, DirPlan(entry, fs.dirs[entry]),
                           acc, dirOk, store.log, store.objects);
        if !dirOk {
          ArtworkPlanPrefix(fs, entries, i + 1);
          ExecutedPrefix(log0, objects0, ArtworkPlanOf(fs, entries[..i + 1]), ArtworkPlan(fs),
                         acc, store.log, store.objects);
          return false;
        }
      } else {
        assert ArtworkPlanOf(fs, entries[..i + 1]) == before by {
          assert before + [] == before;
        }
      }
    }
    assert ArtworkPlanOf(fs, entries[..|entries|]) == ArtworkPlan(fs) by {
      ArtworkPlanPrefix(fs, entries, |entries|);
    }
    ok := true;
  }

  /** main: the assets, then the artworks; exit status 1 on the first failed put. */
  method BatchUpload(fs: Fs, store: Store) returns (exitCode: int)
    modifies store`objects, store`log
    ensures Executed(old(store.log), old(store.objects), UploadPlan(fs), store.accepts,
                     exitCode == 0, store.log, store.objects)
    ensures exitCode == 0 || exitCode == 1
  {
    ghost var log0, objects0 := store.log, store.objects;
    var assetsOk := UploadAssets(fs, store);
    if !assetsOk {
      ExecutedThenSkipped(log0, objects0, AssetPlan(fs), ArtworkPlan(fs), store.accepts, store.log, store.objects);
      return 1;
    }
    ghost var log1, objects1 := store.log, store.objects;
    var artworksOk := UploadArtworks(fs, store);
    ExecutedInSequence(log0, objects0, AssetPlan(fs), log1, objects1, ArtworkPlan(fs),
                       store.accepts, artworksOk, store.log, store.objects);
    exitCode := if artworksOk then 0 else 1;
  }

  // ---------------------------------------------------------------------
  // Running a plan

  /**
    The keys the script builds inline, `${ossAssetsPath}/${asset}` and
    `${ossArtworksPath}/${artworkDir}/${file}`, are those of getAssetPath and
    getArtworkPath, which the model uses.
  */
  lemma InlineKeysAreOssKeys(asset: string, dir: string, file: string)
    ensures OssAssetsDir + "/" + asset == Oss.AssetPath(asset)
    ensures OssArtworksDir + "/" + dir + "/" + file == Oss.ArtworkPath(dir, file)
  {
    assert OssAssetsDir + "/" == Oss.AssetsPrefix;
    assert OssArtworksDir + "/" == Oss.ArtworksPrefix;
  }

  lemma ExecutedSuccess(log0: seq<Request>, objects0: map<string, LocalPath>, plan: seq<Request>, accepts: nat -> bool)
    requires forall m :: |log0| <= m < |log0| + |plan| ==> accepts(m)
    ensures Executed(log0, objects0, plan, accepts, true, log0 + plan, Apply(objects0, plan))
  {
    var k := Succeeded(plan, |log0|, accepts);
    assert k == |plan|;
    assert plan[..k] == plan;
  }

  lemma {:induction false} SucceededConcat(a: seq<Request>, b: seq<Request>, n: nat, accepts: nat -> bool)
    ensures Succeeded(a + b, n, accepts)
         == if Succeeded(a, n, accepts) < |a| then Succeeded(a, n, accepts)
            else |a| + Succeeded(b, n + |a|, accepts)
    decreases |a|
  {
    if a != [] {
      assert (a + b)[1..] == a[1..] + b;
      SucceededConcat(a[1..], b, n + 1, accepts);
    } else {
      assert a + b == b;
    }
  }

  lemma {:induction false} ApplyConcat(objects: map<string, LocalPath>, a: seq<Request>, b: seq<Request>)
    ensures Apply(objects, a + b) == Apply(Apply(objects, a), b)
    decreases |b|
  {
    if b == [] {
      assert a + b == a;
    } else {
      assert (a + b)[..|a + b| - 1] == a + b[..|b| - 1];
      ApplyConcat(objects, a, b[..|b| - 1]);
    }
  }

  /** A failed first plan leaves the second unattempted. */
  lemma ExecutedThenSkipped(log0: seq<Request>, objects0: map<string, LocalPath>, a: seq<Request>, b: seq<Request>,
                            accepts: nat -> bool, log: seq<Request>, objects: map<string, LocalPath>)
    requires Executed(log0, objects0, a, accepts, false, log, objects)
    ensures Executed(log0, objects0, a + b, accepts, false, log, objects)
  {
    var k := Succeeded(a, |log0|, accepts);
    SucceededConcat(a, b, |log0|, accepts);
    assert (a + b)[..k] == a[..k];
    assert (a + b)[..k + 1] == a[..k + 1];
  }

  /** A single put is a run of the one-request plan. */
  lemma ExecutedOne(log1: seq<Request>, objects1: map<string, LocalPath>, x: Request, accepts: nat -> bool,
                    ok: bool, log: seq<Request>, objects: map<string, LocalPath>)
    requires log == log1 + [x] && ok == accepts(|log1|)
    requires objects == if ok then objects1[x.key := x.from] else objects1
    ensures Executed(log1, objects1, [x], accepts, ok, log, objects)
  {
    assert [x][..1] == [x] && [x][..0] == [];
    assert Apply(objects1, [x]) == objects1[x.key := x.from] by {
      assert [x][..0] == [];
    }
  }

  /** A run that failed on a plan fails the same way on any plan that starts with it. */
  lemma ExecutedPrefix(log0: seq<Request>, objects0: map<string, LocalPath>, a: seq<Request>, b: seq<Request>,
                       accepts: nat -> bool, log: seq<Request>, objects: map<string, LocalPath>)
    requires a <= b
    requires Executed(log0, objects0, a, accepts, false, log, objects)
    ensures Executed(log0, objects0, b, accepts, false, log, objects)
  {
    ExecutedThenSkipped(log0, objects0, a, b[|a|..], accepts, log, objects);
    assert a + b[|a|..] == b;
  }

  /** Running two plans one after the other is running their concatenation. */
  lemma ExecutedInSequence(log0: seq<Request>, objects0: map<string, LocalPath>, a: seq<Request>,
                           log1: seq<Request>, objects1: map<string, LocalPath>, b: seq<Request>,
                           accepts: nat -> bool, ok: bool, log: seq<Request>, objects: map<string, LocalPath>)
    requires Executed(log0, objects0, a, accepts, true, log1, objects1)
    requires Executed(log1, objects1, b, accepts, ok, log, objects)
    ensures Executed(log0, objects0, a + b, accepts, ok, log, objects)
  {
    var ka := Succeeded(a, |log0|, accepts);
    var kb := Succeeded(b, |log1|, accepts);
    var k := Succeeded(a + b, |log0|, accepts);
    assert ka == |a| && log1 == log0 + a && objects1 == Apply(objects0, a) by {
      assert a[..ka] == a;
    }
    assert k == |a| + kb by {
      SucceededConcat(a, b, |log0|, accepts);
    }
    assert ok == (k == |a + b|);
    assert log == log0 + (a + b)[..if ok then k else k + 1] by {
      var m := if ok then kb else kb + 1;
      assert log == log1 + b[..m];
      assert (a + b)[..|a| + m] == a + b[..m];
    }
    assert objects == Apply(objects0, (a + b)[..k]) by {
      assert (a + b)[..k] == a + b[..kb];
      ApplyConcat(objects0, a, b[..kb]);
    }
  }

  // ---------------------------------------------------------------------
  // Prefixes of the plans, as the loops build them

  lemma AssetPlanStep(fs: Fs, names: seq<string>, i: nat)
    requires i < |names|
    ensures AssetPlanOf(fs, names[..i + 1]) == AssetPlanOf(fs, names[..i]) + AssetStep(fs, names[i])
  {
    assert names[..i + 1][..i] == names[..i];
  }

  lemma ArtworkPlanStep(fs: Fs, entries: seq<string>, i: nat)
    requires i < |entries|
    ensures ArtworkPlanOf(fs, entries[..i + 1]) == ArtworkPlanOf(fs, entries[..i])
      + (if IsDirectory(fs, entries[i]) then DirPlan(entries[i], fs.dirs[entries[i]]) else [])
  {
    assert entries[..i + 1][..i] == entries[..i];
  }

  lemma DirPlanStep(dir: string, files: seq<string>, j: nat)
    requires j < |files|
    ensures DirPlan(dir, files[..j + 1]) == DirPlan(dir, files[..j]) + [Request(Oss.ArtworkPath(dir, files[j]), ArtworkFile(dir, files[j]))]
    ensures DirPlan(dir, files[..j + 1]) <= DirPlan(dir, files)
  {
  }

  /** The asset loop's puts so far are the start of the whole asset plan. */
  lemma {:induction false} AssetPlanPrefix(fs: Fs, names: seq<string>, i: nat)
    requires i <= |names|
    ensures AssetPlanOf(fs, names[..i]) <= AssetPlanOf(fs, names)
    ensures i == |names| ==> AssetPlanOf(fs, names[..i]) == AssetPlanOf(fs, names)
    decreases |names| - i
  {
    if i < |names| {
      AssetPlanStep(fs, names, i);
      AssetPlanPrefix(fs, names, i + 1);
    } else {
      assert names[..i] == names;
    }
  }

  /** The artwork loop's puts so far are the start of the whole artwork plan. */
  lemma {:induction false} ArtworkPlanPrefix(fs: Fs, entries: seq<string>, i: nat)
    requires i <= |entries|
    ensures ArtworkPlanOf(fs, entries[..i]) <= ArtworkPlanOf(fs, entries)
    ensures i == |entries| ==> ArtworkPlanOf(fs, entries[..i]) == ArtworkPlanOf(fs, entries)
    decreases |entries| - i
  {
    if i < |entries| {
      ArtworkPlanStep(fs, entries, i);
      ArtworkPlanPrefix(fs, entries, i + 1);
    } else {
      assert entries[..i] == entries;
    }
  }

  // ---------------------------------------------------------------------
  // What the plan contains

  /** The position of a static asset in the processing order. */
  function AssetRank(from: LocalPath): nat {
    if from == PublicFile("bg.jpg") then 0
    else if from == PublicFile("dao.png") then 1
    else if from == PublicFile("se.png") then 2
    else 3
  }

  /**
    The asset puts: the key of each is getAssetPath of its name, an asset is
    put iff it is present in `public/` (a missing one does not stop the
    others), and they come in the order bg.jpg, dao.png, se.png.
  */
  lemma AssetPlanContents(fs: Fs)
    ensures forall p :: p in AssetPlan(fs) ==> p.from.PublicFile? && p.key == Oss.AssetPath(p.from.name)
    ensures forall a :: Request(Oss.AssetPath(a), PublicFile(a)) in AssetPlan(fs) <==> a in Assets && a in fs.publicFiles
    ensures forall i, j :: 0 <= i < j < |AssetPlan(fs)| ==> AssetRank(AssetPlan(fs)[i].from) < AssetRank(AssetPlan(fs)[j].from)
  {
    AssetPlanKeys(fs);
    AssetPlanPresence(fs);
    AssetPlanOrder(fs);
  }

  lemma AssetPlanKeys(fs: Fs)
    ensures forall p :: p in AssetPlan(fs) ==> p.from.PublicFile? && p.key == Oss.AssetPath(p.from.name)
  {
    AssetPlanSteps(fs);
  }

  lemma AssetPlanPresence(fs: Fs)
    ensures forall a :: Request(Oss.AssetPath(a), PublicFile(a)) in AssetPlan(fs) <==> a in Assets && a in fs.publicFiles
  {
    AssetPlanSteps(fs);
  }

  lemma AssetPlanOrder(fs: Fs)
    ensures forall i, j :: 0 <= i < j < |AssetPlan(fs)| ==> AssetRank(AssetPlan(fs)[i].from) < AssetRank(AssetPlan(fs)[j].from)
  {
    AssetPlanSteps(fs);
  }

  /** The asset plan unrolled: one step per asset, in order. */
  lemma AssetPlanSteps(fs: Fs)
    ensures AssetPlan(fs) == AssetStep(fs, "bg.jpg") + AssetStep(fs, "dao.png") + AssetStep(fs, "se.png")
  {
    var s0, s1, s2 := AssetStep(fs, "bg.jpg"), AssetStep(fs, "dao.png"), AssetStep(fs, "se.png");
    assert Assets[..2][..1] == Assets[..1] && Assets[..1][..0] == [];
    assert AssetPlanOf(fs, Assets[..1]) == s0;
    assert AssetPlanOf(fs, Assets[..2]) == s0 + s1;
    assert Assets[..3] == Assets;
  }

  lemma {:induction false} DirPlanContents(dir: string, files: seq<string>)
    ensures forall p :: p in DirPlan(dir, files) ==> p.from == ArtworkFile(dir, p.from.file) && p.key == KeyOf(p.from)
    ensures forall f :: ArtworkFile(dir, f) in (set p | p in DirPlan(dir, files) :: p.from) <==> f in files
  {
    forall f | f in files
      ensures ArtworkFile(dir, f) in (set p | p in DirPlan(dir, files) :: p.from)
    {
      var k :| 0 <= k < |files| && files[k] == f;
      assert DirPlan(dir, files)[k].from == ArtworkFile(dir, f);
    }
  }

  function Froms(plan: seq<Request>): set<LocalPath> {
    set p | p in plan :: p.from
  }

  lemma {:induction false} ArtworkPlanOfContents(fs: Fs, entries: seq<string>)
    ensures forall p :: p in ArtworkPlanOf(fs, entries) ==> p.from.ArtworkFile? && p.key == KeyOf(p.from)
    ensures forall d, f :: ArtworkFile(d, f) in Froms(ArtworkPlanOf(fs, entries)) <==>
      d in entries && IsDirectory(fs, d) && f in fs.dirs[d]
    decreases |entries|
  {
    if entries != [] {
      var init, e := entries[..|entries| - 1], entries[|entries| - 1];
      ArtworkPlanOfContents(fs, init);
      assert entries == init + [e];
      var step := if IsDirectory(fs, e) then DirPlan(e, fs.dirs[e]) else [];
      if IsDirectory(fs, e) {
        DirPlanContents(e, fs.dirs[e]);
      }
      assert ArtworkPlanOf(fs, entries) == ArtworkPlanOf(fs, init) + step;
      assert Froms(ArtworkPlanOf(fs, entries)) == Froms(ArtworkPlanOf(fs, init)) + Froms(step);
    }
  }

  /**
    The artwork puts: a file `f` of entry `d` is put, at getArtworkPath(d, f),
    iff the source directory exists, `d` is one of its entries, `d` is a
    directory and `f` is listed in it. Nothing is filtered by name.
  */
  lemma ArtworkPlanContents(fs: Fs)
    ensures forall p :: p in ArtworkPlan(fs) ==> p.from.ArtworkFile? && p.key == Oss.ArtworkPath(p.from.dir, p.from.file)
    ensures forall d, f :: ArtworkFile(d, f) in Froms(ArtworkPlan(fs)) <==>
      fs.sourceDirExists && d in fs.sourceEntries && IsDirectory(fs, d) && f in fs.dirs[d]
  {
    if fs.sourceDirExists {
      ArtworkPlanOfContents(fs, fs.sourceEntries);
    }
  }

  /** Every asset put comes before every artwork put. */
  lemma AssetsBeforeArtworks(fs: Fs)
    ensures forall k :: 0 <= k < |UploadPlan(fs)| ==> (UploadPlan(fs)[k].from.PublicFile? <==> k < |AssetPlan(fs)|)
    ensures UploadPlan(fs)[..|AssetPlan(fs)|] == AssetPlan(fs)
  {
    AssetPlanContents(fs);
    ArtworkPlanContents(fs);
    var a: seq<Request>, b: seq<Request> := AssetPlan(fs), ArtworkPlan(fs);
    var plan: seq<Request> := a + b;
    forall k | 0 <= k < |plan|
      ensures plan[k].from.PublicFile? <==> k < |a|
    {
      if k < |a| {
        assert plan[k] == a[k] && a[k] in a;
      } else {
        assert plan[k] == b[k - |a|] && b[k - |a|] in b;
      }
    }
  }

  // ---------------------------------------------------------------------
  // A successful run stores every planned file under its key

  lemma {:induction false} DistinctConcat<T>(a: seq<T>, b: seq<T>)
    requires Distinct(a) && Distinct(b)
    requires forall x :: x in a ==> x !in b
    ensures Distinct(a + b)
  {
    forall i, j | 0 <= i < j < |a + b|
      ensures (a + b)[i] != (a + b)[j]
    {
      if i < |a| && j >= |a| {
        assert (a + b)[i] in a;
        assert (a + b)[j] == b[j - |a|];
      } else if i >= |a| {
        assert (a + b)[i] == b[i - |a|] && (a + b)[j] == b[j - |a|];
      }
    }
  }

  function FromSeq(plan: seq<Request>): (r: seq<LocalPath>)
    ensures |r| == |plan| && forall i :: 0 <= i < |plan| ==> r[i] == plan[i].from
  {
    seq(|plan|, i requires 0 <= i < |plan| => plan[i].from)
  }

  lemma {:induction false} ArtworkFromsDistinct(fs: Fs, entries: seq<string>)
    requires Distinct(entries)
    requires forall d :: d in fs.dirs ==> Distinct(fs.dirs[d])
    ensures Distinct(FromSeq(ArtworkPlanOf(fs, entries)))
    decreases |entries|
  {
    if entries != [] {
      var init, e := entries[..|entries| - 1], entries[|entries| - 1];
      assert entries == init + [e];
      assert Distinct(init) by {
        forall i, j | 0 <= i < j < |init| ensures init[i] != init[j] {
          assert init[i] == entries[i] && init[j] == entries[j];
        }
      }
      assert e !in init by {
        forall i | 0 <= i < |init| ensures init[i] != e {
          assert init[i] == entries[i];
        }
      }
      ArtworkFromsDistinct(fs, init);
      ArtworkPlanOfContents(fs, init);
      var step := if IsDirectory(fs, e) then DirPlan(e, fs.dirs[e]) else [];
      var front := ArtworkPlanOf(fs, init);
      assert ArtworkPlanOf(fs, entries) == front + step;
      assert FromSeq(front + step) == FromSeq(front) + FromSeq(step);
      if IsDirectory(fs, e) {
        var files := fs.dirs[e];
        assert Distinct(FromSeq(step)) by {
          forall i, j | 0 <= i < j < |step| ensures FromSeq(step)[i] != FromSeq(step)[j] {
            assert files[i] != files[j];
          }
        }
        forall x | x in FromSeq(front)
          ensures x !in FromSeq(step)
        {
          var i :| 0 <= i < |FromSeq(front)| && FromSeq(front)[i] == x;
          assert front[i] in front;
          assert x in Froms(front);
          assert x.dir in init;
        }
      }
      DistinctConcat(FromSeq(front), FromSeq(step));
    }
  }

  /** On a well-formed filesystem no two planned puts share a key. */
  lemma PlanKeysDistinct(fs: Fs)
    requires WellFormed(fs)
    ensures forall i, j :: 0 <= i < j < |UploadPlan(fs)| ==> UploadPlan(fs)[i].key != UploadPlan(fs)[j].key
  {
    var a, b := AssetPlan(fs), ArtworkPlan(fs);
    var plan := a + b;
    AssetPlanContents(fs);
    ArtworkPlanContents(fs);
    assert Distinct(FromSeq(b)) by {
      if fs.sourceDirExists {
        ArtworkFromsDistinct(fs, fs.sourceEntries);
      }
    }
    forall i, j | 0 <= i < j < |plan|
      ensures plan[i].key != plan[j].key
    {
      if j < |a| {
        var p, q := a[i], a[j];
        assert plan[i] == p && plan[j] == q;
        assert p in a && q in a;
        assert AssetRank(p.from) < AssetRank(q.from);
        Oss.AssetPathRoundTrip(p.from.name);
        Oss.AssetPathRoundTrip(q.from.name);
      } else if i >= |a| {
        var p, q := b[i - |a|], b[j - |a|];
        assert plan[i] == p && plan[j] == q;
        assert p in b && q in b;
        assert FromSeq(b)[i - |a|] != FromSeq(b)[j - |a|];
        assert p.from in Froms(b) && q.from in Froms(b);
        Froms_ArtworkDir(fs, p.from);
        Froms_ArtworkDir(fs, q.from);
        Oss.ArtworkPathInjective(p.from.dir, p.from.file, q.from.dir, q.from.file);
      } else {
        var p, q := a[i], b[j - |a|];
        assert plan[i] == p && plan[j] == q;
        assert p in a && q in b;
        Oss.ArtworkPathNeverAssetPath(q.from.dir, q.from.file, p.from.name);
      }
    }
  }

  lemma Froms_ArtworkDir(fs: Fs, from: LocalPath)
    requires WellFormed(fs)
    requires from.ArtworkFile? && from in Froms(ArtworkPlan(fs))
    ensures '/' !in from.dir
  {
    ArtworkPlanContents(fs);
  }

  lemma {:induction false} ApplyStoresEach(objects: map<string, LocalPath>, plan: seq<Request>)
    requires forall i, j :: 0 <= i < j < |plan| ==> plan[i].key != plan[j].key
    ensures forall i :: 0 <= i < |plan| ==> plan[i].key in Apply(objects, plan) && Apply(objects, plan)[plan[i].key] == plan[i].from
    ensures forall k :: k !in PlanKeys(plan) ==> (k in Apply(objects, plan) <==> k in objects)
    ensures forall k :: k !in PlanKeys(plan) && k in objects ==> Apply(objects, plan)[k] == objects[k]
    decreases |plan|
  {
    if plan != [] {
      var init := plan[..|plan| - 1];
      ApplyStoresEach(objects, init);
      assert forall i :: 0 <= i < |init| ==> init[i] == plan[i];
      assert PlanKeys(plan) == PlanKeys(init) + {plan[|plan| - 1].key};
    }
  }

  /**
    After a run that exits with status 0 on a well-formed filesystem, every
    planned key holds the file planned for it, and every other key is as it
    was: puts overwrite and nothing else is touched.
  */
  lemma SuccessfulRunStoresPlan(fs: Fs, log0: seq<Request>, objects0: map<string, LocalPath>,
                                accepts: nat -> bool, log: seq<Request>, objects: map<string, LocalPath>)
    requires WellFormed(fs)
    requires Executed(log0, objects0, UploadPlan(fs), accepts, true, log, objects)
    ensures log == log0 + UploadPlan(fs)
    ensures forall p :: p in UploadPlan(fs) ==> p.key in objects && objects[p.key] == p.from
    ensures forall k :: k !in PlanKeys(UploadPlan(fs)) ==> (k in objects <==> k in objects0)
    ensures forall k :: k !in PlanKeys(UploadPlan(fs)) && k in objects0 ==> objects[k] == objects0[k]
  {
    var plan := UploadPlan(fs);
    assert plan[..|plan|] == plan;
    PlanKeysDistinct(fs);
    ApplyStoresEach(objects0, plan);
  }

  /** After a run that fails, exactly the puts before the failed one have taken effect. */
  lemma FailedRunStopsAtFirstFailure(fs: Fs, log0: seq<Request>, objects0: map<string, LocalPath>,
                                     accepts: nat -> bool, log: seq<Request>, objects: map<string, LocalPath>)
    requires Executed(log0, objects0, UploadPlan(fs), accepts, false, log, objects)
    ensures |log0| < |log| <= |log0| + |UploadPlan(fs)|
    ensures log[|log0|..] == UploadPlan(fs)[..|log| - |log0|]
    ensures !accepts(|log| - 1)
    ensures forall n :: |log0| <= n < |log| - 1 ==> accepts(n)
    ensures objects == Apply(objects0, UploadPlan(fs)[..|log| - |log0| - 1])
  {
    var k := Succeeded(UploadPlan(fs), |log0|, accepts);
    assert |log| == |log0| + k + 1;
  }
}
