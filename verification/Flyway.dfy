/** The Flyway lambda: choose a source of migration files, prepare it, run Flyway, clean up, under any faults. */
module Flyway {
  import opened Basics

  /** What a directory under /tmp holds. A path that is not in the map does not exist. */
  datatype Dir = Plain | Repo

  type Dirs = map<string, Dir>

  const BASE_PATH := "/tmp"
  const GIT_DIRECTORY := "/tmp/gitrepo"

  datatype FlywayMethod = MIGRATE | INFO | BASELINE | CLEAN | REPAIR | VALIDATE

  datatype Request = Request(s3Bucket: Option<string>, gitRepository: Option<string>, reuseRepo: bool,
                             commit: Option<string>, flywayMethod: FlywayMethod)

  /** Which steps of one request fail, and what a failing step leaves in the directory it works on. */
  datatype Faults = Faults(build: bool, delete: bool, mkdir: bool, clone: bool, pull: bool, checkout: bool,
                           download: bool, engine: bool, info: bool, cleanDelete: bool, residue: Dir, downloadLeaves: bool)

  datatype Source = S3(directory: string) | Git

  datatype Effect =
    | Prepare(directory: string, done: bool)
    | Engine(flywayMethod: FlywayMethod, done: bool)
    | Clean(directory: string, done: bool)

  /** The source that the handler chooses; none when building the request throws. */
  function Chosen(req: Request, f: Faults): Option<Source> {
    if f.build then None
    else if req.s3Bucket.Some? then Some(S3(BASE_PATH + "/" + req.s3Bucket.value))
    else if req.gitRepository.Some? then Some(Git)
    else None
  }

  function DirectoryOf(s: Source): string {
    if s.S3? then s.directory else GIT_DIRECTORY
  }

  /** `FileUtils.deleteDirectory`: a missing directory is no error. */
  function Delete(dirs: Dirs, d: string, fails: bool, residue: Dir): (Dirs, bool) {
    if d !in dirs then (dirs, true) else if fails then (dirs[d := residue], false) else (dirs - {d}, true)
  }

  function Checkout(req: Request, f: Faults): bool {
    req.commit.None? || !f.checkout
  }

  /** `cloneRepo` */
  function CloneRepo(dirs: Dirs, req: Request, f: Faults): (Dirs, bool) {
    var (dirs1, deleted) := Delete(dirs, GIT_DIRECTORY, f.delete, f.residue);
    if !deleted then (dirs1, false)
    else if f.mkdir then (dirs1, false)
    else if f.clone then (dirs1[GIT_DIRECTORY := f.residue], false)
    else (dirs1[GIT_DIRECTORY := Repo], Checkout(req, f))
  }

  function PullRepo(dirs: Dirs, req: Request, f: Faults): (Dirs, bool) {
    (dirs, !f.pull && Checkout(req, f))
  }

  function RepoExists(dirs: Dirs): bool {
    GIT_DIRECTORY in dirs && dirs[GIT_DIRECTORY] == Repo
  }

  function PrepareSource(dirs: Dirs, s: Source, req: Request, f: Faults): (Dirs, bool) {
    match s
    case S3(d) =>
      if f.download && !f.downloadLeaves then (dirs, false)
      else (dirs[d := if d in dirs then dirs[d] else Plain], !f.download)
    case Git => if req.reuseRepo && RepoExists(dirs) then PullRepo(dirs, req, f) else CloneRepo(dirs, req, f)
  }

  function CleanSource(dirs: Dirs, s: Source, req: Request, f: Faults): (Dirs, bool) {
    if s.Git? && req.reuseRepo then (dirs, true) else Delete(dirs, DirectoryOf(s), f.cleanDelete, f.residue)
  }

  /** `FlywayService.call`: the method, then `info`. Migrating needs folders. */
  function Call(req: Request, hasFolders: bool, f: Faults): (seq<Effect>, bool) {
    if req.flywayMethod == INFO then ([Engine(INFO, !f.info)], !f.info)
    else if req.flywayMethod == MIGRATE && !hasFolders then ([], false)
    else if f.engine then ([Engine(req.flywayMethod, false)], false)
    else ([Engine(req.flywayMethod, true), Engine(INFO, !f.info)], !f.info)
  }

  /** One request: the directories afterwards, the effects in order, and whether a response is returned. */
  function Handle(dirs: Dirs, req: Request, f: Faults): (Dirs, seq<Effect>, bool) {
    if f.build then (dirs, [], false) else
    match Chosen(req, f)
    case None =>
      var (calls, done) := Call(req, false, f);
      (dirs, calls, done)
    case Some(s) =>
      var (dirs1, prepared) := PrepareSource(dirs, s, req, f);
      var (calls, done) := if prepared then Call(req, true, f) else ([], false);
      var (dirs2, cleaned) := CleanSource(dirs1, s, req, f);
      (dirs2, [Prepare(DirectoryOf(s), prepared)] + calls + [Clean(DirectoryOf(s), cleaned)], done && cleaned)
  }

  /** The lambda: /tmp outlives a request when the instance is reused. */
  class FlywayLambda {
    var dirs: Dirs

    constructor ()
      ensures dirs == map[]
    {
      dirs := map[];
    }

    method DeleteDirectory(d: string, fails: bool, residue: Dir) returns (done: bool)
      modifies this
      ensures (dirs, done) == Delete(old(dirs), d, fails, residue)
    {
      if d !in dirs {
        return true;
      }
      if fails {
        dirs := dirs[d := residue];
        return false;
      }
      dirs := dirs - {d};
      done := true;
    }

    method Clone(req: Request, f: Faults) returns (done: bool)
      modifies this
      ensures (dirs, done) == CloneRepo(old(dirs), req, f)
    {
      if GIT_DIRECTORY in dirs {
        var deleted := DeleteDirectory(GIT_DIRECTORY, f.delete, f.residue);
        if !deleted {
          return false;
        }
      }
      if f.mkdir {
        return false;
      }
      ghost var cleared := dirs;
      dirs := dirs[GIT_DIRECTORY := Plain];
      if f.clone {
        dirs := dirs[GIT_DIRECTORY := f.residue];
        assert dirs == cleared[GIT_DIRECTORY := f.residue];
        return false;
      }
      dirs := dirs[GIT_DIRECTORY := Repo];
      assert dirs == cleared[GIT_DIRECTORY := Repo];
      done := Checkout(req, f);
    }

    method PrepareFiles(s: Source, req: Request, f: Faults) returns (done: bool)
      modifies this
      ensures (dirs, done) == PrepareSource(old(dirs), s, req, f)
    {
      if s.S3? {
        if !f.download || f.downloadLeaves {
          dirs := dirs[s.directory := if s.directory in dirs then dirs[s.directory] else Plain];
        }
        done := !f.download;
      } else if req.reuseRepo && RepoExists(dirs) {
        done := !f.pull && Checkout(req, f);
      } else {
        done := Clone(req, f);
      }
    }

    method CleanFiles(s: Source, req: Request, f: Faults) returns (done: bool)
      modifies this
      ensures (dirs, done) == CleanSource(old(dirs), s, req, f)
    {
      done := true;
      if !(s.Git? && req.reuseRepo) {
        done := DeleteDirectory(DirectoryOf(s), f.cleanDelete, f.residue);
      }
    }

    method CallFlyway(req: Request, hasFolders: bool, f: Faults) returns (effects: seq<Effect>, done: bool)
      ensures (effects, done) == Call(req, hasFolders, f)
    {
      effects := [];
      if req.flywayMethod != INFO {
        if req.flywayMethod == MIGRATE && !hasFolders {
          return [], false;
        }
        effects := [Engine(req.flywayMethod, !f.engine)];
        if f.engine {
          return effects, false;
        }
      }
      effects := effects + [Engine(INFO, !f.info)];
      done := !f.info;
      assert effects == Call(req, hasFolders, f).0;
    }

    /** `handleRequest`, with its `finally` on every path that has chosen a source. */
    method HandleRequest(req: Request, f: Faults) returns (effects: seq<Effect>, responds: bool)
      modifies this
      ensures (dirs, effects, responds) == Handle(old(dirs), req, f)
    {
      effects, responds := [], false;
      if f.build {
        return;
      }
      var source := Chosen(req, f);
      var prepared := true;
      if source.Some? {
        prepared := PrepareFiles(source.value, req, f);
        effects := [Prepare(DirectoryOf(source.value), prepared)];
      }
      if prepared {
        var calls, done := CallFlyway(req, source.Some?, f);
        effects := effects + calls;
        responds := done;
      }
      if source.Some? {
        assert effects == [Prepare(DirectoryOf(source.value), prepared)] + (if prepared then Call(req, true, f).0 else []);
        var cleaned := CleanFiles(source.value, req, f);
        effects := effects + [Clean(DirectoryOf(source.value), cleaned)];
        responds := responds && cleaned;
      } else {
        assert effects == Call(req, false, f).0;
      }
    }
  }

  // ---------- One request ----------

  function Cleans(es: seq<Effect>): nat {
    if es == [] then 0 else (if es[0].Clean? then 1 else 0) + Cleans(es[1..])
  }

  lemma {:induction false} CleansConcat(a: seq<Effect>, b: seq<Effect>)
    ensures Cleans(a + b) == Cleans(a) + Cleans(b)
  {
    if a == [] {
      assert a + b == b;
    } else {
      assert (a + b)[1..] == a[1..] + b;
      CleansConcat(a[1..], b);
    }
  }

  lemma {:induction false} NoCleanAmongEngines(es: seq<Effect>)
    requires forall i :: 0 <= i < |es| ==> es[i].Engine?
    ensures Cleans(es) == 0
  {
    if es != [] {
      NoCleanAmongEngines(es[1..]);
    }
  }

  lemma CallsDoNotClean(req: Request, hasFolders: bool, f: Faults)
    ensures Cleans(Call(req, hasFolders, f).0) == 0
    ensures forall e | e in Call(req, hasFolders, f).0 :: e.Engine?
  {
    var calls := Call(req, hasFolders, f).0;
    if calls != [] {
      NoCleanAmongEngines(calls);
    }
  }

  /** Whatever fails: the chosen source is cleaned exactly once, as the last effect, and a request that has
      chosen none cleans nothing. */
  lemma CleanedExactlyOnce(dirs: Dirs, req: Request, f: Faults)
    ensures var es := Handle(dirs, req, f).1;
            && Cleans(es) == (if Chosen(req, f).Some? then 1 else 0)
            && (Chosen(req, f).Some? ==> es[|es| - 1].Clean? && es[|es| - 1].directory == DirectoryOf(Chosen(req, f).value))
  {
    CallsDoNotClean(req, false, f);
    if Chosen(req, f).Some? {
      var s := Chosen(req, f).value;
      var (dirs1, prepared) := PrepareSource(dirs, s, req, f);
      CallsDoNotClean(req, true, f);
      var calls := if prepared then Call(req, true, f).0 else [];
      var first := Prepare(DirectoryOf(s), prepared);
      var last := Clean(DirectoryOf(s), CleanSource(dirs1, s, req, f).1);
      CleansConcat([first] + calls, [last]);
      CleansConcat([first], calls);
      assert [last][1..] == [] && [first][1..] == [];
    }
  }

  /** Flyway runs only after a successful prepare or with no source, and migrates only with a source. */
  lemma EngineOnlyWhenPrepared(dirs: Dirs, req: Request, f: Faults, i: nat)
    requires i < |Handle(dirs, req, f).1| && Handle(dirs, req, f).1[i].Engine?
    ensures Chosen(req, f).Some? ==> i > 0 && Handle(dirs, req, f).1[0] == Prepare(DirectoryOf(Chosen(req, f).value), true)
    ensures Handle(dirs, req, f).1[i].flywayMethod == MIGRATE ==> Chosen(req, f).Some?
  {
  }

  /** A bucket goes before a repository; with neither, or when the request cannot be built, nothing is prepared. */
  lemma SourceChosen(dirs: Dirs, req: Request, f: Faults)
    ensures var (dirs', es, responds) := Handle(dirs, req, f);
            && (f.build ==> dirs' == dirs && es == [] && !responds)
            && (!f.build && req.s3Bucket.Some? ==> es != [] && es[0].Prepare? && es[0].directory == "/tmp/" + req.s3Bucket.value)
            && (!f.build && req.s3Bucket.None? && req.gitRepository.Some? ==>
                  es != [] && es[0].Prepare? && es[0].directory == "/tmp/gitrepo")
            && (req.s3Bucket.None? && req.gitRepository.None? ==> forall e | e in es :: e.Engine?)
  {
    CallsDoNotClean(req, false, f);
    assert BASE_PATH + "/" == "/tmp/";
  }

  /** The request's migration files are in a repository. */
  predicate FromGit(req: Request, f: Faults) {
    !f.build && req.s3Bucket.None? && req.gitRepository.Some?
  }

  /** The first effect of a request with a source is its prepare, and succeeds iff: files are downloaded; or, in
      reuse mode with a repository there, it is pulled; or else it is cloned into a new directory, after the old
      one is gone. A commit that is asked for must be checked out. */
  lemma PreparesIff(dirs: Dirs, req: Request, f: Faults)
    requires !f.build && (req.s3Bucket.Some? || req.gitRepository.Some?)
    ensures var es := Handle(dirs, req, f).1;
            && es != [] && es[0].Prepare?
            && (req.s3Bucket.Some? ==> (es[0].done <==> !f.download))
            && (req.s3Bucket.None? ==>
                  (es[0].done <==>
                     && (req.commit.Some? ==> !f.checkout)
                     && if req.reuseRepo && "/tmp/gitrepo" in dirs && dirs["/tmp/gitrepo"] == Repo then !f.pull
                        else !("/tmp/gitrepo" in dirs && f.delete) && !f.mkdir && !f.clone))
  {
  }

  /** In reuse mode a repository that was prepared stays, whatever else fails; one that was there stays anyway. */
  lemma ReuseKeepsRepo(dirs: Dirs, req: Request, f: Faults)
    requires FromGit(req, f) && req.reuseRepo
    requires Handle(dirs, req, f).1[0] == Prepare("/tmp/gitrepo", true) || ("/tmp/gitrepo" in dirs && dirs["/tmp/gitrepo"] == Repo)
    ensures "/tmp/gitrepo" in Handle(dirs, req, f).0 && Handle(dirs, req, f).0["/tmp/gitrepo"] == Repo
  {
  }

  /** Exactly when a request leaves the directory of its source behind, and that its clean succeeds iff it is in
      reuse mode or has removed the directory. */
  lemma LeavesIff(dirs: Dirs, req: Request, f: Faults)
    ensures var (dirs', es, _) := Handle(dirs, req, f);
            && (!f.build && req.s3Bucket.Some? ==> (es[|es| - 1].done <==> "/tmp/" + req.s3Bucket.value !in dirs'))
            && (FromGit(req, f) ==> (es[|es| - 1].done <==> req.reuseRepo || "/tmp/gitrepo" !in dirs'))
            && (!f.build && req.s3Bucket.Some? ==>
                  ("/tmp/" + req.s3Bucket.value in dirs' <==>
                     f.cleanDelete && ("/tmp/" + req.s3Bucket.value in dirs || !f.download || f.downloadLeaves)))
            && (FromGit(req, f) ==>
                  ("/tmp/gitrepo" in dirs' <==>
                     && (req.reuseRepo || f.cleanDelete)
                     && (|| (req.reuseRepo && "/tmp/gitrepo" in dirs && dirs["/tmp/gitrepo"] == Repo)
                         || ("/tmp/gitrepo" in dirs && f.delete)
                         || !f.mkdir)))
  {
    assert BASE_PATH + "/" == "/tmp/";
  }

  function EnginesOf(es: seq<Effect>): seq<Effect> {
    if es == [] then [] else (if es[0].Engine? then [es[0]] else []) + EnginesOf(es[1..])
  }

  lemma {:induction false} EnginesOfConcat(a: seq<Effect>, b: seq<Effect>)
    ensures EnginesOf(a + b) == EnginesOf(a) + EnginesOf(b)
  {
    TailOfConcat(a, b);
    if a != [] {
      EnginesOfConcat(a[1..], b);
    }
  }

  lemma {:induction false} AllEngines(es: seq<Effect>)
    requires forall i :: 0 <= i < |es| ==> es[i].Engine?
    ensures EnginesOf(es) == es
  {
    if es != [] {
      AllEngines(es[1..]);
      HeadTail(es);
    }
  }

  lemma EnginesOfHandle(dirs: Dirs, req: Request, f: Faults)
    ensures EnginesOf(Handle(dirs, req, f).1) ==
            if f.build then []
            else if Chosen(req, f).None? then Call(req, false, f).0
            else if Handle(dirs, req, f).1[0].done then Call(req, true, f).0 else []
  {
    CallsDoNotClean(req, false, f);
    CallsDoNotClean(req, true, f);
    if Chosen(req, f).Some? {
      var s := Chosen(req, f).value;
      var (dirs1, prepared) := PrepareSource(dirs, s, req, f);
      var calls := if prepared then Call(req, true, f).0 else [];
      var first, last := Prepare(DirectoryOf(s), prepared), Clean(DirectoryOf(s), CleanSource(dirs1, s, req, f).1);
      assert forall i :: 0 <= i < |calls| ==> calls[i] in calls;
      AllEngines(calls);
      EnginesOfConcat([first] + calls, [last]);
      EnginesOfConcat([first], calls);
      assert [first][1..] == [] && [last][1..] == [];
    } else if !f.build {
      var calls := Call(req, false, f).0;
      assert forall i :: 0 <= i < |calls| ==> calls[i] in calls;
      AllEngines(calls);
    }
  }

  /** What Flyway is made to do by a request that reaches it: the method, then info; info alone is asked once;
      after a failed method nothing. */
  lemma FlywayCalls(dirs: Dirs, req: Request, f: Faults)
    requires !f.build
    requires req.s3Bucket.Some? || req.gitRepository.Some? ==> Handle(dirs, req, f).1[0].done
    ensures var calls := EnginesOf(Handle(dirs, req, f).1);
            if req.flywayMethod == INFO then calls == [Engine(INFO, !f.info)]
            else if req.flywayMethod == MIGRATE && req.s3Bucket.None? && req.gitRepository.None? then calls == []
            else if f.engine then calls == [Engine(req.flywayMethod, false)]
            else calls == [Engine(req.flywayMethod, true), Engine(INFO, !f.info)]
  {
    EnginesOfHandle(dirs, req, f);
  }

  /** A response is returned iff every step that was taken succeeded and the last Flyway call was reached;
      the requested method has run then. */
  lemma RespondsIffAllDone(dirs: Dirs, req: Request, f: Faults)
    ensures var (_, es, responds) := Handle(dirs, req, f);
            && (responds <==> (forall e | e in es :: e.done) && Engine(INFO, true) in es)
            && (responds ==> Engine(req.flywayMethod, true) in es)
  {
  }

  // ---------- Between requests ----------

  /** The directory that a request works on. */
  function Touched(req: Request, f: Faults): Option<string> {
    var s := Chosen(req, f);
    if s.Some? then Some(DirectoryOf(s.value)) else None
  }

  /** The request may leave its directory: a git source in reuse mode, or a failed deletion. */
  predicate MayLeave(req: Request, f: Faults) {
    f.cleanDelete || (req.reuseRepo && Chosen(req, f) == Some(Git))
  }

  ghost predicate SameExcept(dirs: Dirs, dirs': Dirs, d: string) {
    forall e | e != d :: (e in dirs' <==> e in dirs) && (e in dirs ==> dirs'[e] == dirs[e])
  }

  lemma PrepareStaysInside(dirs: Dirs, s: Source, req: Request, f: Faults)
    ensures SameExcept(dirs, PrepareSource(dirs, s, req, f).0, DirectoryOf(s))
  {
  }

  lemma CleanStaysInside(dirs: Dirs, s: Source, req: Request, f: Faults)
    ensures SameExcept(dirs, CleanSource(dirs, s, req, f).0, DirectoryOf(s))
    ensures !f.cleanDelete && !(s.Git? && req.reuseRepo) ==> DirectoryOf(s) !in CleanSource(dirs, s, req, f).0
  {
  }

  /** A request changes no directory but its source's, and removes that one unless it may leave it. */
  lemma OneRequestDirs(dirs: Dirs, req: Request, f: Faults)
    ensures var dirs' := Handle(dirs, req, f).0;
            && (Touched(req, f).None? ==> dirs' == dirs)
            && (Touched(req, f).Some? ==> SameExcept(dirs, dirs', Touched(req, f).value))
            && (Touched(req, f).Some? && !MayLeave(req, f) ==> Touched(req, f).value !in dirs')
  {
    if Chosen(req, f).Some? {
      var s := Chosen(req, f).value;
      var dirs1 := PrepareSource(dirs, s, req, f).0;
      PrepareStaysInside(dirs, s, req, f);
      CleanStaysInside(dirs1, s, req, f);
      assert Handle(dirs, req, f).0 == CleanSource(dirs1, s, req, f).0;
    }
  }

  datatype Invocation = Invocation(request: Request, faults: Faults)

  /** /tmp after a series of requests to a fresh instance. */
  function After(calls: seq<Invocation>): Dirs {
    if calls == [] then map[] else
      var last := calls[|calls| - 1];
      Handle(After(calls[..|calls| - 1]), last.request, last.faults).0
  }

  predicate Left(calls: seq<Invocation>, i: nat, d: string)
    requires i < |calls|
  {
    Touched(calls[i].request, calls[i].faults) == Some(d) && MayLeave(calls[i].request, calls[i].faults)
  }

  /** No request from the i-th on has removed d. */
  predicate NotCleanedSince(calls: seq<Invocation>, i: nat, d: string) {
    forall j :: i < j < |calls| ==>
      Touched(calls[j].request, calls[j].faults) == Some(d) ==> MayLeave(calls[j].request, calls[j].faults)
  }

  lemma StillLeft(front: seq<Invocation>, last: Invocation, i: nat, d: string)
    requires i < |front| && Left(front, i, d) && NotCleanedSince(front, i, d)
    requires Touched(last.request, last.faults) != Some(d)
    ensures Left(front + [last], i, d) && NotCleanedSince(front + [last], i, d)
  {
  }

  lemma OtherDirStays(calls: seq<Invocation>, d: string)
    requires calls != [] && d in After(calls)
    ensures Left(calls, |calls| - 1, d) ||
            (Touched(calls[|calls| - 1].request, calls[|calls| - 1].faults) != Some(d) && d in After(calls[..|calls| - 1]))
  {
    var last := calls[|calls| - 1];
    OneRequestDirs(After(calls[..|calls| - 1]), last.request, last.faults);
  }

  /** Over any series of requests with any faults: a directory exists between requests only if some request
      may have left it, by reuse mode or by a failed deletion, and no later request cleaned it. */
  lemma {:induction false} LeftOverOnlyByReuseOrFault(calls: seq<Invocation>, d: string) returns (i: nat)
    requires d in After(calls)
    ensures i < |calls| && Left(calls, i, d) && NotCleanedSince(calls, i, d)
  {
    var n := |calls| - 1;
    OtherDirStays(calls, d);
    if Left(calls, n, d) {
      i := n;
    } else {
      i := LeftOverOnlyByReuseOrFault(calls[..n], d);
      StillLeft(calls[..n], calls[n], i, d);
      Prefixes(calls, n, n);
    }
  }

  /** Without reuse mode and failed deletions, /tmp is empty between requests, whatever else fails. */
  lemma {:induction false} NothingLeft(calls: seq<Invocation>)
    requires forall i :: 0 <= i < |calls| ==> !calls[i].request.reuseRepo && !calls[i].faults.cleanDelete
    ensures After(calls) == map[]
  {
    if d :| d in After(calls) {
      var i := LeftOverOnlyByReuseOrFault(calls, d);
      assert false;
    }
  }

  /** A repository that is there stays over any series of requests that use it in reuse mode, or not at all. */
  lemma {:induction false} RepoStays(calls: seq<Invocation>, i: nat)
    requires i <= |calls| && "/tmp/gitrepo" in After(calls[..i]) && After(calls[..i])["/tmp/gitrepo"] == Repo
    requires forall j :: i <= j < |calls| && Touched(calls[j].request, calls[j].faults) == Some("/tmp/gitrepo") ==>
               FromGit(calls[j].request, calls[j].faults) && calls[j].request.reuseRepo
    ensures "/tmp/gitrepo" in After(calls) && After(calls)["/tmp/gitrepo"] == Repo
    decreases calls
  {
    if i == |calls| {
      Prefixes(calls, i, i);
    } else {
      var front, last := calls[..|calls| - 1], calls[|calls| - 1];
      Prefixes(calls, i, |front|);
      RepoStays(front, i);
      OneRequestDirs(After(front), last.request, last.faults);
      if Touched(last.request, last.faults) == Some("/tmp/gitrepo") {
        ReuseKeepsRepo(After(front), last.request, last.faults);
      }
    }
  }

  // ---------- The effects of a series of requests ----------

  /** Between requests, or at work on a source's directory that is prepared or not, or out of order. */
  datatype Bracket = Idle | Open(directory: string, prepared: bool) | Broken

  /** The order that effects must keep: a prepare opens a directory; Flyway runs only in one that is prepared
      or, except to migrate, with none open; a clean closes the directory that is open. */
  function Follow(b: Bracket, e: Effect): Bracket {
    match (b, e)
    case (Idle, Prepare(d, done)) => Open(d, done)
    case (Idle, Engine(m, _)) => if m == MIGRATE then Broken else Idle
    case (Open(d, prepared), Engine(_, _)) => if prepared then b else Broken
    case (Open(d, _), Clean(c, _)) => if c == d then Idle else Broken
    case _ => Broken
  }

  function FollowAll(b: Bracket, es: seq<Effect>): Bracket
    decreases es
  {
    if es == [] then b else FollowAll(Follow(b, es[0]), es[1..])
  }

  lemma {:induction false} FollowConcat(b: Bracket, es: seq<Effect>, fs: seq<Effect>)
    ensures FollowAll(b, es + fs) == FollowAll(FollowAll(b, es), fs)
    decreases es
  {
    TailOfConcat(es, fs);
    if es != [] {
      FollowConcat(Follow(b, es[0]), es[1..], fs);
    }
  }

  /** All effects of a series of requests to one instance. */
  function Trace(calls: seq<Invocation>): seq<Effect> {
    if calls == [] then [] else
      var front, last := calls[..|calls| - 1], calls[|calls| - 1];
      Trace(front) + Handle(After(front), last.request, last.faults).1
  }

  lemma CallsFollow(b: Bracket, req: Request, hasFolders: bool, f: Faults)
    requires if hasFolders then b.Open? && b.prepared else b.Idle?
    ensures FollowAll(b, Call(req, hasFolders, f).0) == b
  {
    var es := Call(req, hasFolders, f).0;
    if es != [] {
      FollowOne(b, es[0]);
      if |es| == 2 {
        FollowOne(b, es[1]);
        FollowConcat(b, [es[0]], [es[1]]);
        assert es == [es[0]] + [es[1]];
      } else {
        assert es == [es[0]];
      }
    }
  }

  lemma FollowOne(b: Bracket, e: Effect)
    ensures FollowAll(b, [e]) == Follow(b, e)
  {
    assert [e][1..] == [];
  }

  lemma OneRequestFollows(dirs: Dirs, req: Request, f: Faults)
    ensures FollowAll(Idle, Handle(dirs, req, f).1) == Idle
  {
    if Chosen(req, f).Some? {
      var s := Chosen(req, f).value;
      var (dirs1, prepared) := PrepareSource(dirs, s, req, f);
      var calls := if prepared then Call(req, true, f).0 else [];
      var first, last := Prepare(DirectoryOf(s), prepared), Clean(DirectoryOf(s), CleanSource(dirs1, s, req, f).1);
      FollowConcat(Idle, [first] + calls, [last]);
      FollowConcat(Idle, [first], calls);
      assert [first][1..] == [] && [last][1..] == [];
      if prepared {
        CallsFollow(Open(DirectoryOf(s), true), req, true, f);
      }
    } else if !f.build {
      CallsFollow(Idle, req, false, f);
    }
  }

  /** Over any series of requests with any faults the effects keep that order, and end with nothing open. */
  lemma {:induction false} TraceFollows(calls: seq<Invocation>)
    ensures FollowAll(Idle, Trace(calls)) == Idle
  {
    if calls != [] {
      var front, last := calls[..|calls| - 1], calls[|calls| - 1];
      TraceFollows(front);
      OneRequestFollows(After(front), last.request, last.faults);
      FollowConcat(Idle, Trace(front), Handle(After(front), last.request, last.faults).1);
    }
  }

  lemma {:induction false} BrokenStays(es: seq<Effect>)
    ensures FollowAll(Broken, es) == Broken
  {
    if es != [] {
      BrokenStays(es[1..]);
    }
  }

  /** What is open is closed by the next effect that is not Flyway's. */
  lemma {:induction false} OpenIsClosed(b: Bracket, es: seq<Effect>) returns (j: nat)
    requires b.Open? && FollowAll(b, es) == Idle
    ensures j < |es| && es[j].Clean? && es[j].directory == b.directory
    ensures forall m :: 0 <= m < j ==> es[m].Engine? && b.prepared
    decreases es
  {
    if es[0].Clean? {
      if es[0].directory != b.directory {
        BrokenStays(es[1..]);
      }
      j := 0;
    } else {
      if Follow(b, es[0]) == Broken {
        BrokenStays(es[1..]);
      }
      var k := OpenIsClosed(b, es[1..]);
      j := k + 1;
      assert forall m :: 1 <= m < j ==> es[m] == es[1..][m - 1];
    }
  }

  /** Over any series of requests with any faults: every prepare is followed by a clean of its directory, with
      nothing but Flyway calls in between, and with none when the prepare failed. */
  lemma EveryPrepareIsCleaned(calls: seq<Invocation>, i: nat) returns (j: nat)
    requires i < |Trace(calls)| && Trace(calls)[i].Prepare?
    ensures var es := Trace(calls);
            && i < j < |es| && es[j].Clean? && es[j].directory == es[i].directory
            && forall m :: i < m < j ==> es[m].Engine? && es[i].done
  {
    var es := Trace(calls);
    TraceFollows(calls);
    var b, rest := FollowAll(Idle, es[..i]), es[i + 1..];
    FollowAround(es, i);
    if Follow(b, es[i]) == Broken {
      BrokenStays(rest);
    }
    var k := OpenIsClosed(Follow(b, es[i]), rest);
    j := i + 1 + k;
    assert es[j] == rest[k];
    forall m | i < m < j ensures es[m].Engine? && es[i].done {
      assert es[m] == rest[m - i - 1];
    }
  }

  lemma FollowAround(es: seq<Effect>, i: nat)
    requires i < |es|
    ensures FollowAll(Idle, es) == FollowAll(Follow(FollowAll(Idle, es[..i]), es[i]), es[i + 1..])
  {
    SplitAround(es, i);
    FollowConcat(Idle, es[..i], [es[i]] + es[i + 1..]);
    FollowConcat(FollowAll(Idle, es[..i]), [es[i]], es[i + 1..]);
    FollowOne(FollowAll(Idle, es[..i]), es[i]);
  }

  /** And every clean closes a prepare: there are as many of one as of the other. */
  lemma {:induction false} AsManyCleans(b: Bracket, es: seq<Effect>)
    requires FollowAll(b, es) == Idle
    ensures Cleans(es) == Prepares(es) + if b.Open? then 1 else 0
    decreases es
  {
    if es != [] {
      if Follow(b, es[0]) == Broken {
        BrokenStays(es[1..]);
      }
      AsManyCleans(Follow(b, es[0]), es[1..]);
    }
  }

  function Prepares(es: seq<Effect>): nat {
    if es == [] then 0 else (if es[0].Prepare? then 1 else 0) + Prepares(es[1..])
  }

  lemma EveryCleanHasItsPrepare(calls: seq<Invocation>)
    ensures Cleans(Trace(calls)) == Prepares(Trace(calls))
  {
    TraceFollows(calls);
    AsManyCleans(Idle, Trace(calls));
  }
}
