# verse — a Dafny model

`verse` is a small command-line tool that prints the scripture "verse of the
day". One run looks for today's cache file in a `.verse` directory next to
the executable. On a hit it decodes the stored JSON. On a miss it asks the
passage-of-the-day endpoint, decodes the body, and only then stores that body
as today's cache file. It then prints the passage. A single verse gets its
`Book chapter:verse` header on a line of its own. A range of verses gets one
`Book chapter:first-last` header and then one indented line per verse.

This project models both parts of the program:

- `Formatter` (`formatter.dfy`) models the verse record, its header, the
  record's own `toString` and the passage's `toString`. The passage's
  `toString` is a method whose accumulating loop is proved equal to the
  specification function `Render`. Lemmas then state what `Render` produces:
  - where each record's line sits in the output;
  - the output as the lines it is made of, joined by newlines, for every
    passage (`SingleVerseText`, `PassageText`, `BodyJoin`);
  - when no field of any record holds a newline, the output cut at newlines
    (one verse line per record, in input order);
  - the ends of the passage that the range header reads.
- `TextLines` (`lines.dfy`) cuts text into lines at every newline. It is proved
  to lose nothing: joining the lines gives the text back. It is the view in
  which the formatter's two layouts are stated.
- `FileStore` (`filestore.dfy`) models the filesystem as the program uses it:
  - a value `Disk` holding files (path to bytes) and directories, plus the
    paths where stat, creation, writing or reading fails;
  - a mutable class `FileSystem` whose methods do `exists`, `os.Mkdir`,
    `ioutil.ReadFile` and `ioutil.WriteFile`.
- `CacheResolver` (`resolver.dfy`) models the body of `main`. `Resolve` is a
  pure specification of one run. `Run` is the step-by-step method, proved
  equal to `Resolve`. The contract of `Resolve` states that a cache hit
  makes no network request, how each failure ends, and that nothing is
  stored unless the body was accepted and decoded. The lemmas cover:
  - when the cache directory is created and when a write stores nothing;
  - a same-day round trip through the cache;
  - stale days never read;
  - a failed cache write being ignored.

Inputs the program gets from the operating system are parameters of a run
(`Env`):
- the executable's directory, or `None` when `os.Executable` fails;
- the path separator;
- the date key;
- what the endpoint would answer.

JSON decoding is a parameter `decode: Bytes -> Option<Votd>`, where `None`
means that `json.Unmarshal` reported an error.

Every other failure goes through `checkError` (verse.go:79-85), which prints a
quiet failure notice and exits 0. Two inputs end a run with a panic instead:
- An HTTP status outside [200, 400) makes the code `panic` (verse.go:143-144).
  The model ends such a run with `Panicked`, with no cache write and nothing
  rendered.
- A payload that decodes to an empty array, from the network or from the
  cache, reaches `v[0]` in `votd.toString` and panics. The model ends such a
  run with `Panicked`. `Render` and `VotdToString` require a non-empty passage
  because the code indexes the first record without checking. On a cache miss
  whose fetched body decodes to an empty passage, that body is written to the
  cache before the panic, as in the code. Every later run that day then reads
  the stored body from the cache and panics again.

## Model

The functions `Formatter.Header`, `Formatter.VerseToString`,
`CacheResolver.FromNetwork`, `FileStore.StatOf` and the other `Disk` functions
have no contracts of their own. `Formatter.Render` and `Formatter.Body` only
promise that a multi-record output ends in a newline. The lemma and method
rows below state what all of them mean.

| member | source | states |
|---|---|---|
| `Formatter.HeaderFields` | verse.go:31-33 | the header is the book name, a space, the chapter, a colon and the verse number, each copied whole (positions and total length fixed, no field trimmed or altered) |
| `Formatter.VerseLineFields` | verse.go:42 | the verse line is a tab, "(", the verse number, ") " and the verse text, each copied whole |
| `Formatter.VerseToStringShape` | verse.go:35-45 | a record's text always ends with its verse line; with the header it starts with the header and a newline and is exactly that much longer; so the header-less text is a suffix of the text with the header |
| `Formatter.HeaderlessIsVerseLine` | verse.go:35-45 | without the header a record's text is exactly its verse line; with it, the header, a newline, then that line |
| `Formatter.VotdToString` | verse.go:49-64 | the program's rendering (range header, then a loop appending each record's header-less line and a newline) equals `Render`, for every non-empty passage |
| `Formatter.BodyAppend` | verse.go:54-58 | the loop's text for two passages in sequence is the first's text followed by the second's: records are neither reordered nor merged |
| `Formatter.BodyAt` | verse.go:56-58 | record i's line and newline sit exactly between the lines of records 0..i-1 and those of records i+1.. |
| `Formatter.BodyFront` | verse.go:56-58 | the first record's line and a newline open the loop's text |
| `Formatter.BodyLines` | verse.go:54-60 | when no field of any record holds a newline: cut at newlines, the loop's text is one verse line per record in input order, then an empty remainder: every line ends in a newline and nothing is added, dropped or repeated |
| `Formatter.SingleVerseLayout` | verse.go:63 | when no field of the record holds a newline, one record prints as exactly two lines, its header and its verse line (`SingleVerseText` holds for every record) |
| `Formatter.SingleVerseOutput` | verse.go:63 | one record prints as the record's text with its header, and the output ends with the verse text itself: no newline is appended |
| `Formatter.PassageLayout` | verse.go:52-60 | when no field of any record holds a newline, several records print as the lines: the range header "first header-last verse", then one verse line per record in input order, then the empty remainder after the final newline; the header is not repeated per record (`PassageText` and `BodyJoin` hold for every passage) |
| `Formatter.BodyJoin` | verse.go:54-58 | for every passage, whatever its fields hold, the loop's text is the records' verse lines and a final empty line joined by newlines |
| `Formatter.SingleVerseText` | verse.go:63 | for every record, whatever its fields hold, its printed text is exactly its header and its verse line joined by a newline |
| `Formatter.PassageText` | verse.go:52-60 | for every passage of several records, whatever their fields hold, the printed text is exactly the range header line, the verse lines in input order and a final empty line, joined by newlines |
| `Formatter.RangeHeaderFromEnds` | verse.go:53 | the range header depends only on the first record and the last record's verse number; the middle records never affect it |
| `Formatter.SpecimenVerse` | verse.go:63 | John 3:16 alone prints exactly as "John 3:16\n\t(16) For God so loved..." |
| `Formatter.SpecimenRange` | verse.go:53 | John 3:16 and 3:17 together get exactly the header line "John 3:16-17\n" |
| `FileStore.FileSystem.Exists` | verse.go:66-77 | (true, no error) when stat succeeds, (false, no error) when the path does not exist, (true, error) on any other stat failure |
| `FileStore.FileSystem.Mkdir` | verse.go:101 | the directory is added exactly when nothing is at the path and it may be created; files are untouched |
| `FileStore.FileSystem.ReadFile` | verse.go:116 | a readable regular file yields its whole contents; anything else is an error |
| `FileStore.FileSystem.WriteFile` | verse.go:157 | a writable path gets the whole new contents; a refused write changes nothing |
| `CacheResolver.CacheFileLayout` | verse.go:94-107 | the cache file path is the executable's directory, the separator, ".verse", the separator and the date key, and lies inside (and differs from) the cache directory path |
| `CacheResolver.OneFilePerDay` | verse.go:107 | two date keys share a cache file path if and only if they are equal |
| `CacheResolver.Resolve` | verse.go:87-158 | the network is asked if and only if the executable's directory is known, the cache directory exists or can be created, and today's file is absent; every run that neither hits nor misses the cache ends with the quiet failure notice; on a miss, a status outside [200, 400) panics with nothing stored, and a failed request or an unreadable or undecodable body ends with the notice with nothing stored; a passage is shown only after a hit or an accepted miss; an accepted miss stores the body at today's file when that file can be written; a file changes only on an accepted miss, and then only today's file, with that body; on a hit the outcome is the decoding of today's file; on an accepted miss that passage is shown whether or not the write succeeded; no directory other than the cache directory is ever created |
| `CacheResolver.ResolveFootprint` | verse.go:99-157 | the cache directory is created exactly when stat finds it absent and it may be created; a cache write the system refuses stores nothing |
| `CacheResolver.Run` | verse.go:87-160 | the step-by-step run (stat and create the cache directory, stat the cache file, read and decode on a hit, or fetch, check the status, read, decode and then write on a miss, then render) ends with the outcome, filesystem and fetch decision `Resolve` gives |
| `CacheResolver.CacheRoundTrip` | verse.go:107-157 | after a run that missed the cache, got an accepted body and could write and later read today's file, a second run the same day does not fetch, whatever the network would say, leaves the filesystem as it is and ends with the same outcome |
| `CacheResolver.OnlyTodaysEntryRead` | verse.go:107-124 | files at any path other than the cache directory and today's cache file do not affect the outcome or the fetch decision: stale days are never read |
| `CacheResolver.WriteFailureIgnored` | verse.go:152-157 | whether today's cache file can be written does not change the outcome or the fetch decision |

## Left out

- HTTP transport, client construction, the 5-second timeouts and the endpoint
  URL (verse.go:15-17, 126-141): network I/O. A fetch is the `FetchResult`
  parameter. A timeout is one way of getting `RequestFailed`.
- `json.Unmarshal` (verse.go:121, 152): a library call. It is the `decode`
  parameter. Go's field mapping by JSON tag is not modelled.
- The date key `time.Now().Local().Format("20060102")` (verse.go:21): clock
  and library formatting. The key is a parameter of the run. Its YYYYMMDD
  shape is not checked.
- `os.Executable` and `filepath.Dir` (verse.go:88-93): their result is the
  `exeDir` parameter, with `None` when the executable cannot be resolved.
- The semantics of the real filesystem beyond its effect on the map and the
  directory set. The model does not cover permission modes, parent
  directories that must exist, or links. Where the system refuses an operation
  is fixed per path in the `Disk`.
- `checkError`'s printing and `os.Exit(0)` (verse.go:79-85), the panic's
  message and exit status, and the final `fmt.Print` (verse.go:160): process
  and stdout effects. They are the `Outcome` values `CouldNotLoad`,
  `Panicked` and `Shown(text)`.
- FileStore.FileSystem.WriteFile: a write that fails after `ioutil.WriteFile`
  has opened and truncated the file (disk full, quota, I/O error) leaves an
  empty or partial file at the path. The model only has writes that are
  refused before anything changes, or that store the whole body. So it does
  not capture a partial cache file that makes every later run that day print
  the failure notice instead of fetching again.
- A regular file named `.verse` where the cache directory should be: the real
  stat of a path beneath it fails with "not a directory". The model does not
  derive stat results from what kind of entry a parent path is. Stat results
  depend only on the path itself.
- Two runs at once racing on the same cache file: a concurrency effect between
  processes, not modelled.
