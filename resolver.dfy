/** The cache resolver: one run of the program. It finds the day's cache file
    next to the executable; on a hit it decodes the stored bytes, on a miss it
    fetches the passage of the day, decodes it and only then stores the body.
    The decoded passage is rendered by the verse formatter. */
module CacheResolver {
  import opened FileStore
  import opened Formatter

  /** Name of the cache directory beside the executable. */
  const CacheDirName: string := ".verse"

  /** "<exPath><sep>.verse" */
  function CacheDirPath(exPath: Path, sep: char): Path {
    exPath + [sep] + CacheDirName
  }

  /** "<exPath><sep>.verse<sep><dateKey>": one cache file per date key. */
  function CacheFilePath(exPath: Path, sep: char, dateKey: string): Path {
    CacheDirPath(exPath, sep) + [sep] + dateKey
  }

  /** The cache file sits directly inside the cache directory and is named by
      the date key alone. */
  lemma CacheFileLayout(exPath: Path, sep: char, dateKey: string)
    ensures var f := CacheFilePath(exPath, sep, dateKey); var dir := CacheDirPath(exPath, sep);
      && |f| == |exPath| + |dateKey| + 8
      && f[..|exPath|] == exPath && f[|exPath|] == sep
      && f[|exPath| + 1..|exPath| + 7] == ".verse" && f[|exPath| + 7] == sep
      && f[|exPath| + 8..] == dateKey
      && f[..|dir|] == dir && f != dir
  {
  }

  /** Different days never share a cache file, and the same day always finds
      the same one. */
  lemma OneFilePerDay(exPath: Path, sep: char, day1: string, day2: string)
    ensures CacheFilePath(exPath, sep, day1) == CacheFilePath(exPath, sep, day2) <==> day1 == day2
  {
    var f1, f2 := CacheFilePath(exPath, sep, day1), CacheFilePath(exPath, sep, day2);
    var n := |CacheDirPath(exPath, sep)| + 1;
    if f1 == f2 {
      assert f1[n..] == day1 && f2[n..] == day2;
    }
  }

  /** What the network answers: the request fails outright (connection,
      timeout), or a response arrives with a status code and a body, whose
      reading may fail (None). */
  datatype FetchResult = RequestFailed | Answered(status: int, body: Option<Bytes>)

  /** Everything a run takes from outside the filesystem: the directory of the
      executable (None when it cannot be resolved), the path separator, the
      local date key (YYYYMMDD), and the answer the endpoint would give if asked. */
  datatype Env = Env(exeDir: Option<Path>, sep: char, dateKey: string, fetch: FetchResult)

  /** How a run ends. Shown: the formatted passage is printed. CouldNotLoad:
      the failure notice is printed and the process still exits with status 0.
      Panicked: a runtime panic (an HTTP status outside [200, 400), or an empty
      passage reaching the formatter's first-record index). */
  datatype Outcome = Shown(text: string) | CouldNotLoad | Panicked

  /** The end state of a run: its outcome, the filesystem afterwards, and
      whether the network was asked. */
  datatype RunResult = RunResult(outcome: Outcome, disk: Disk, fetched: bool)

  /** The status codes the program accepts. */
  predicate SuccessStatus(status: int) {
    200 <= status < 400
  }

  /** A decoded passage is rendered; an empty one reaches the index of its
      first record and panics. */
  function Show(vs: Votd): Outcome {
    if |vs| == 0 then Panicked else Shown(Render(vs))
  }

  /** The outcome of a cache hit: the stored bytes are read and decoded. */
  function FromCache(data: Option<Bytes>, decode: Bytes -> Option<Votd>): Outcome {
    match data
    case None => CouldNotLoad
    case Some(bytes) =>
      match decode(bytes)
      case None => CouldNotLoad
      case Some(vs) => Show(vs)
  }

  /** A cache miss: the network is asked; the body is stored only after the
      status was accepted, the body was read and it decoded. */
  function FromNetwork(d: Disk, cacheFile: Path, fetch: FetchResult, decode: Bytes -> Option<Votd>): RunResult {
    match fetch
    case RequestFailed => RunResult(CouldNotLoad, d, true)
    case Answered(status, body) =>
      if !SuccessStatus(status) then RunResult(Panicked, d, true)
      else
        match body
        case None => RunResult(CouldNotLoad, d, true)
        case Some(bytes) =>
          match decode(bytes)
          case None => RunResult(CouldNotLoad, d, true)
          case Some(vs) => RunResult(Show(vs), WriteOf(d, cacheFile, bytes), true)
  }

  /** The cache directory can be used: it is there, or it is absent and may be
      created. */
  predicate CacheDirReady(d: Disk, exPath: Path, sep: char) {
    var cache := CacheDirPath(exPath, sep);
    StatOf(d, cache) == Present || (StatOf(d, cache) == Absent && CanMkdir(d, cache))
  }

  /** The run reaches the network: the executable's directory is known, the
      cache directory is usable and today's cache file does not exist. */
  predicate MissesCache(d: Disk, env: Env) {
    && env.exeDir.Some?
    && CacheDirReady(d, env.exeDir.value, env.sep)
    && StatOf(d, CacheFilePath(env.exeDir.value, env.sep, env.dateKey)) == Absent
  }

  /** Today's cache file, for a run whose executable directory is known. */
  function TodaysFile(env: Env): Path
    requires env.exeDir.Some?
  {
    CacheFilePath(env.exeDir.value, env.sep, env.dateKey)
  }

  /** The run finds today's cache file: the executable's directory is known,
      the cache directory is usable and today's file is there. */
  predicate HitsCache(d: Disk, env: Env) {
    && env.exeDir.Some?
    && CacheDirReady(d, env.exeDir.value, env.sep)
    && StatOf(d, TodaysFile(env)) == Present
  }

  /** The endpoint answers with an accepted status and a body that reads and
      decodes. */
  predicate Accepted(fetch: FetchResult, decode: Bytes -> Option<Votd>) {
    && fetch.Answered? && SuccessStatus(fetch.status)
    && fetch.body.Some? && decode(fetch.body.value).Some?
  }

  /** The endpoint answers with a status the program rejects. */
  predicate Rejected(fetch: FetchResult) {
    fetch.Answered? && !SuccessStatus(fetch.status)
  }

  /** One run of the program from the filesystem d. */
  function Resolve(d: Disk, env: Env, decode: Bytes -> Option<Votd>): (r: RunResult)
    // the network is asked exactly when today's cache file is missing
    ensures r.fetched <==> MissesCache(d, env)
    // only a run that asked the network changes a file, and then it stores
    // the body that was accepted and decoded, at today's cache file, and nothing else
    ensures r.disk.files != d.files ==>
      && r.fetched && Accepted(env.fetch, decode)
      && r.disk.files == d.files[TodaysFile(env) := env.fetch.body.value]
    // on a hit the outcome comes from today's file alone
    ensures HitsCache(d, env) ==> r.outcome == FromCache(ReadOf(d, TodaysFile(env)), decode)
    // on a miss whose body is accepted and decodes, that passage is shown,
    // whether or not storing it succeeded
    ensures MissesCache(d, env) && Accepted(env.fetch, decode) ==>
      r.outcome == Show(decode(env.fetch.body.value).value)
    // every run that neither hits nor misses the cache (no executable path, a
    // failed stat, a directory that cannot be created) ends with the quiet notice
    ensures !HitsCache(d, env) && !MissesCache(d, env) ==> r.outcome == CouldNotLoad
    // on a miss, a rejected status panics before anything is read, stored or shown
    ensures MissesCache(d, env) && Rejected(env.fetch) ==>
      r.outcome == Panicked && r.disk.files == d.files
    // on a miss, a failed request, an unreadable body or an undecodable body
    // ends with the quiet notice and stores nothing
    ensures MissesCache(d, env) && !Accepted(env.fetch, decode) && !Rejected(env.fetch) ==>
      r.outcome == CouldNotLoad && r.disk.files == d.files
    // a passage is shown only after a hit or an accepted miss
    ensures r.outcome.Shown? ==> HitsCache(d, env) || (MissesCache(d, env) && Accepted(env.fetch, decode))
    // an accepted miss stores the body at today's file when that file can be written
    ensures MissesCache(d, env) && Accepted(env.fetch, decode) && CanWrite(d, TodaysFile(env)) ==>
      r.disk.files == d.files[TodaysFile(env) := env.fetch.body.value]
    // at most the cache directory is created; what the system refuses does not change
    ensures env.exeDir.Some? ==> r.disk.dirs <= d.dirs + {CacheDirPath(env.exeDir.value, env.sep)}
    ensures env.exeDir.None? ==> r.disk == d
    ensures r.disk.statFails == d.statFails && r.disk.readOnly == d.readOnly
    ensures r.disk.unreadable == d.unreadable
  {
    match env.exeDir
    case None => RunResult(CouldNotLoad, d, false)
    case Some(exPath) =>
      var cache := CacheDirPath(exPath, env.sep);
      var cacheFile := CacheFilePath(exPath, env.sep, env.dateKey);
      assert |cacheFile| > |cache|;
      if StatOf(d, cache) == StatFailed then RunResult(CouldNotLoad, d, false)
      else if StatOf(d, cache) == Absent && !CanMkdir(d, cache) then RunResult(CouldNotLoad, d, false)
      else
        var d1 := if StatOf(d, cache) == Absent then MkdirOf(d, cache) else d;
        match StatOf(d1, cacheFile)
        case StatFailed => RunResult(CouldNotLoad, d1, false)
        case Present => RunResult(FromCache(ReadOf(d1, cacheFile), decode), d1, false)
        case Absent => FromNetwork(d1, cacheFile, env.fetch, decode)
  }

  /** What a run does to the filesystem: the cache directory is created
      exactly when stat finds it absent and it may be created, and a cache
      write the system refuses stores nothing. */
  lemma ResolveFootprint(d: Disk, env: Env, decode: Bytes -> Option<Votd>)
    requires env.exeDir.Some?
    ensures var cache := CacheDirPath(env.exeDir.value, env.sep);
      Resolve(d, env, decode).disk.dirs
        == (if StatOf(d, cache) == Absent && CanMkdir(d, cache) then d.dirs + {cache} else d.dirs)
    ensures MissesCache(d, env) && !CanWrite(d, TodaysFile(env)) ==> Resolve(d, env, decode).disk.files == d.files
  {
    assert |TodaysFile(env)| > |CacheDirPath(env.exeDir.value, env.sep)|;
  }

  /** One run of the program, step by step, against the live filesystem. */
  method Run(fs: FileSystem, env: Env, decode: Bytes -> Option<Votd>) returns (outcome: Outcome, fetched: bool)
    modifies fs
    ensures RunResult(outcome, fs.Snapshot(), fetched) == Resolve(old(fs.Snapshot()), env, decode)
  {
    if env.exeDir.None? {
      return CouldNotLoad, false;
    }
    var exPath := env.exeDir.value;
    var cache := CacheDirPath(exPath, env.sep);
    var exist, err := fs.Exists(cache);
    if err {
      return CouldNotLoad, false;
    }
    if !exist {
      var made := fs.Mkdir(cache);
      if !made {
        return CouldNotLoad, false;
      }
    }
    var cacheFile := CacheFilePath(exPath, env.sep, env.dateKey);
    exist, err := fs.Exists(cacheFile);
    if err {
      return CouldNotLoad, false;
    }
    var votd: Votd;
    if exist {
      var data := fs.ReadFile(cacheFile);
      if data.None? {
        return CouldNotLoad, false;
      }
      var decoded := decode(data.value);
      if decoded.None? {
        return CouldNotLoad, false;
      }
      votd := decoded.value;
      fetched := false;
    } else {
      fetched := true;
      if env.fetch.RequestFailed? {
        return CouldNotLoad, true;
      }
      if !SuccessStatus(env.fetch.status) {
        return Panicked, true;
      }
      if env.fetch.body.None? {
        return CouldNotLoad, true;
      }
      var data := env.fetch.body.value;
      var decoded := decode(data);
      if decoded.None? {
        return CouldNotLoad, true;
      }
      votd := decoded.value;
      // a failed write is ignored: the fetched passage is shown either way
      var stored := fs.WriteFile(cacheFile, data);
    }
    if |votd| == 0 {
      return Panicked, fetched;
    }
    var text := VotdToString(votd);
    return Shown(text), fetched;
  }

  /** A run that fetched and stored today's passage is followed, the same day,
      by a run that reads those bytes back, asks the network nothing whatever it
      would answer, leaves the filesystem alone and ends the same way. */
  lemma CacheRoundTrip(d: Disk, env: Env, decode: Bytes -> Option<Votd>, later: FetchResult)
    requires env.exeDir.Some?
    requires MissesCache(d, env) && Accepted(env.fetch, decode)
    requires CanWrite(d, TodaysFile(env)) && TodaysFile(env) !in d.unreadable
    ensures var first := Resolve(d, env, decode);
      var second := Resolve(first.disk, env.(fetch := later), decode);
      && !second.fetched && second.disk == first.disk && second.outcome == first.outcome
  {
  }

  /** Only today's cache file is consulted: filesystems that differ only in
      files at other paths (stale days among them) lead to the same outcome
      and the same decision to fetch. */
  lemma OnlyTodaysEntryRead(d: Disk, others: map<Path, Bytes>, env: Env, decode: Bytes -> Option<Votd>)
    requires env.exeDir.Some?
    requires var cache := CacheDirPath(env.exeDir.value, env.sep);
      var cacheFile := CacheFilePath(env.exeDir.value, env.sep, env.dateKey);
      && (cache in others <==> cache in d.files)
      && (cacheFile in others <==> cacheFile in d.files)
      && (cacheFile in d.files ==> others[cacheFile] == d.files[cacheFile])
    ensures var r1 := Resolve(d, env, decode); var r2 := Resolve(d.(files := others), env, decode);
      r1.outcome == r2.outcome && r1.fetched == r2.fetched
  {
  }

  /** Whether today's cache file can be written does not change what is shown
      or whether the network is asked: the write is best effort. */
  lemma WriteFailureIgnored(d: Disk, env: Env, decode: Bytes -> Option<Votd>)
    requires env.exeDir.Some?
    ensures var cacheFile := CacheFilePath(env.exeDir.value, env.sep, env.dateKey);
      var r1 := Resolve(d, env, decode);
      var r2 := Resolve(d.(readOnly := d.readOnly + {cacheFile}), env, decode);
      r1.outcome == r2.outcome && r1.fetched == r2.fetched
  {
  }
}
