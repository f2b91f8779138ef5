# archive-giphy, modelled in Dafny

archive-giphy downloads every GIF a Giphy member has published. It runs in two
phases. First it walks the member's feed: it requests
`https://giphy.com/api/v4/channels/{member}/feed`, appends the page's `results`
and follows the page's `next` cursor until a page has none. Then it downloads
each item. For each item it finds the source rendition's URL and derives a
file name `{date}_{username}_{index_id:012}_{id}.{ext}` under
`directory/username`. It creates that directory and skips the item if the file
is already there. Otherwise it fetches the asset and writes it. Per-item
failures are dropped, so a second run picks up where the first stopped. The
exception is a file whose write failed part-way: it exists, so later runs
skip it.

The model has one module per concern:

- `Wrappers`: `Option` and `Result`.
- `Giphy`: the decoded records (`Gif`, `User`), JSON values (`Json`), and the
  error type (`Error`). `Error` holds the three `GiphyError` variants plus
  `Transport` (a request or body read that failed) and `Decode` (a body that
  is not a feed page).
- `Text`: `split_once`, `rsplit_once`, `replace(c, "")`, and the decimal and
  `{:012}` formatting of integers.
- `Pagination`: the feed as a map from URL to response, the specification
  `Crawl` of the cursor walk, and the loop `Gifs`.
- `Planning`: the pure part of `download_gif`, which derives the source URL,
  extension, date, file name and destination.
- `Download`: the filesystem as a class (`FileSystem`), `download_gif`'s
  effects (`DownloadGif`, specified by `DownloadStep`), `download` (a loop
  specified by `DownloadAll`), `main`'s two phases (`Archive`), and the
  resumability and order-independence lemmas.

Modelling choices:

- The remote feed is a `map<Url, Response>`. A URL outside the map is a
  request that fails before a status arrives. A response has a status and a
  body. The body is either a decoded page, text that does not decode, or a
  body whose read failed. The checks run in the program's order: request,
  status, body read, decode.
- The asset server is a `map<Url, Bytes>`, with the same meaning for missing
  URLs. The program does not check the asset response's status
  (src/main.rs:141). So whatever body the server sends is what gets written,
  and the model does the same.
- Paths are lists of components, and `Path::join` appends one component.
  `create_dir_all(dir)` adds `dir` and every ancestor of it to the set of
  directories. `Path::exists` holds for files and for directories.
- The program's pagination loop has no bound, and a cursor cycle would make
  it run forever. `Gifs` has no bound either. It takes a ghost `bound` and
  requires that the cursor chain from the seed ends within that many
  requests. `CrawlFuelIrrelevant` shows that the result does not depend on
  which bound is used.
- Every request the model makes is returned as a list of URLs. This makes
  "one request per page", "no request after a failure" and "zero fetches on a
  second run" statements about those lists.

Three things the program does that a reader might not expect, which the
model keeps:

- Asset responses are not checked for a success status.
- `ResponseError` carries only the status code, not the URL.
- Per-item errors are discarded without being reported: `download` collects
  the results and drops them.

## Model

| member | source | states |
|---|---|---|
| `Text.SplitOnce` | src/main.rs:123 | no result exactly when the character is absent; otherwise the input is `before + c + after`, and `before` has no `c` (so this is the first occurrence) |
| `Text.RSplitOnce` | src/main.rs:116 | no result exactly when the character is absent; otherwise the input is `before + c + after`, and `after` has no `c` (so this is the last occurrence) |
| `Text.RemoveAll` | src/main.rs:126 | the result has no `c`; every other character keeps its count; nothing is added |
| `Text.RemoveAllAppend` | src/main.rs:126 | removal works piece by piece: removing from `a + b` is removing from `a` followed by removing from `b`, so the kept characters stay in their order |
| `Text.RemoveAllOne` | src/main.rs:126 | on a single character, `c` is dropped and any other character is kept; with `RemoveAllAppend` this fixes the result completely |
| `Text.RemoveAllAbsent` | src/main.rs:126 | text without `c` is unchanged, so removing twice is the same as removing once |
| `Text.Decimal` | src/main.rs:71 | the numeral is non-empty and all digits, has no leading zero, and is one digit exactly when the number is below 10 |
| `Text.ParseDecimalOfDecimal` | src/main.rs:71 | reading the printed numeral back gives the number |
| `Text.DecimalInjective` | src/main.rs:71 | distinct numbers print differently |
| `Text.ParseLeadingZeros` | src/main.rs:128 | leading zeros do not change a numeral's value |
| `Text.ZeroPad` | src/main.rs:127-130 | the `{:012}` field has length max(width, digit count) and is all digits; it reads back as the number; it is zeros followed by the unpadded numeral |
| `Pagination.SeedUrl` | src/main.rs:71 | the seed URL is the channel prefix, then the member ID in decimal, then `/feed`; the middle reads back as the member ID |
| `Pagination.FetchPage` | src/main.rs:75-84 | a failed request is `Transport`; a non-2xx status is `ResponseError` with that status; after a 2xx status, a failed body read is `Transport` and an undecodable body is `Decode`; the page is returned exactly when the request succeeds with a 2xx status and a decodable body |
| `Pagination.Crawl` | src/main.rs:69-95 | a finished walk made between 1 and `fuel` requests, and the first one was to the starting URL |
| `Pagination.CrawlFuelIrrelevant` | src/main.rs:73-92 | once the cursor chain ends within some number of requests, any larger bound gives the same walk |
| `Pagination.CrawlFollowsChain` | src/main.rs:82-91 | over a cursor chain of n pages ending with no `next`, the walk makes exactly the n chain requests in order and returns all pages' results concatenated in page order |
| `Pagination.CrawlStopsAtFailure` | src/main.rs:75-84 | if the chain breaks at a failing request, the walk fails with that error; it requested every URL up to the failing one and none after, and returns no items |
| `Pagination.CrawlReportsStatus` | src/main.rs:76-80 | a non-2xx status on the chain makes the walk fail with `ResponseError` carrying exactly that status |
| `Pagination.Gifs` | src/main.rs:69-95 | the loop's result and its request list are those of `Crawl` from the member's seed URL |
| `Planning.Get` | src/main.rs:111 | `Value::get`: a value exactly when the JSON value is an object with that key, and then it is that field |
| `Planning.AsStr` | src/main.rs:113 | `Value::as_str`: a string exactly when the JSON value is a string, and then it is that string |
| `Planning.SourceUrl` | src/main.rs:107-114 | a URL is found exactly when `images` has `source`, that value is an object with `url`, and `url` is a string; the URL is that string; every other case is `NoSourceVideo(id)` |
| `Planning.Extension` | src/main.rs:115-118 | fails, with `NoSourceVideo(id)`, exactly when the URL has no `.`; otherwise the result is the text after the URL's last `.` and contains no `.` |
| `Planning.ExtensionUnique` | src/main.rs:115-118 | the "text after the last `.`" characterisation determines the extension |
| `Planning.Date` | src/main.rs:121-126 | fails, with `InvalidDate` carrying the raw creation time, exactly when the creation time has no `T`; otherwise the result is the text before the first `T` with every `-` removed, and it contains neither `T` nor `-` |
| `Planning.DateUnique` | src/main.rs:121-126 | the "before the first `T`, without `-`" characterisation determines the date |
| `Planning.FileName` | src/main.rs:127-130 | the name is as long as its five fields, the twelve-wide padded `index_id` and its four separators together |
| `Planning.FileNameLayout` | src/main.rs:127-130 | the name starts with the date and `_`, then the username and `_`, then a block of at least 12 digits that reads back as `index_id`, and ends with `.` and the extension |
| `Planning.PlanGif` | src/main.rs:105-133 | errors are checked in the program's order: missing source URL, then URL without `.` (both `NoSourceVideo(id)`), then creation time without `T` (`InvalidDate`); planning succeeds exactly when none of these holds; on success the file name is `date_username_pad12(index)_id.ext`, the directory is `base/username`, and the path is that directory joined with the file name |
| `Planning.IndexBlock` | src/main.rs:127-130 | the padded index is at least 12 digits, reads back as `index_id`, and is exactly 12 digits for an index below 10^12 |
| `Download.Ancestors` | src/main.rs:132 | `create_dir_all(dir)` makes `dir` itself and every non-empty prefix of it, and nothing else |
| `Download.Apply` | src/main.rs:132-143 | directories gain the destination directory and its ancestors; an existing destination means no fetch and no file change; otherwise exactly one fetch of the source URL; when the fetch succeeds only the destination changes, to the fetched bytes; when it fails the files are unchanged and the error is `Transport` |
| `Download.DownloadStep` | src/main.rs:105-126 | a planning failure returns that error before any effect: the disk is unchanged and nothing is fetched |
| `Download.DownloadAll` | src/main.rs:97-103 | the specification of `download`: items one after another, each item's result dropped, at most one asset request per item |
| `Download.FileSystem.PathExists` | src/main.rs:136 | `Path::exists`: true exactly when a file or a directory is at the path |
| `Download.FileSystem.CreateDirAll` | src/main.rs:132 | adds the directory and its ancestors; files are unchanged |
| `Download.FileSystem.WriteFile` | src/main.rs:142-143 | the path then holds exactly the written bytes; nothing else changes |
| `Download.DownloadGif` | src/main.rs:105-147 | the new filesystem, result and fetches are those of `DownloadStep` on the old filesystem |
| `Download.Download` | src/main.rs:97-103 | always returns `Ok(())`; the new filesystem and fetch list are those of `DownloadAll`, which handles items one after another and drops their results |
| `Download.Archive` | src/main.rs:24-31 | a pagination failure is returned before any asset is fetched or the filesystem changes; otherwise every fetched item is downloaded and the result is `Ok(())` |
| `Download.StepGrows` | src/main.rs:132-143 | one item's step keeps every directory, and every existing file with its contents |
| `Download.DownloadAllGrows` | src/main.rs:97-103 | `download` never removes a directory, and never removes or overwrites a file that was there before the run: its bytes stay the same |
| `Download.StepCovers` | src/main.rs:132-143 | after one item whose asset can be fetched, its directories exist and its destination exists |
| `Download.DownloadAllCoversItem` | src/main.rs:97-103 | failure isolation: an item whose asset can be fetched ends the run with its directories and destination present, whatever happens to the other items |
| `Download.DownloadAllCovers` | src/main.rs:97-103 | after a run in which every asset can be fetched, every item that plans has its destination present |
| `Download.DownloadAllStable` | src/main.rs:135-138 | on a disk that already holds every item's directories and destination, `download` fetches nothing and changes nothing |
| `Download.DownloadTwice` | src/main.rs:97-103 | resumability: when every item's asset can be fetched, a second `download` over the same items fetches nothing and leaves the disk exactly as the first run left it |
| `Download.ApplyKeepsExists` | src/main.rs:132-138 | another item's directory creation or write does not change whether this item's destination exists |
| `Download.ApplyCommute` | src/main.rs:132-143 | two planned items with different destinations give the same disk, and fetch the same assets, in either order |
| `Download.StepsCommute` | src/main.rs:98-99 | two items with different destinations, each starting from the same disk, give the same disk and the same multiset of fetches in either order |
| `Download.SwapFront` | src/main.rs:97-103 | exchanging the first two items of a run, when their destinations differ, gives the same final disk and the same multiset of fetches |
| `Download.DownloadAllSwap` | src/main.rs:97-103 | exchanging any two neighbouring items of a run, when their destinations differ, gives the same final disk and the same multiset of fetches; this is why the unordered fan-out may finish items in any order |

## Left out

- HTTP transport (`reqwest::get`, `.text()`, `.bytes()`) is replaced by the feed and asset maps. A network failure is the single value `Transport`. The program sets no timeout: `reqwest::get` uses a default client, so a request that stalls blocks forever. The model has no notion of time and does not represent this.
- JSON decoding (`serde_json::from_str` and the derived `Deserialize`) is replaced by already-decoded records. A body that does not decode is `Malformed`, reported as `Decode`.
- Command-line parsing (`clap`) is left out. `Archive` takes the member ID and directory as parameters.
- Concurrency is left out. `buffer_unordered(20)` is modelled as a sequential loop, so the cap of 20 in-flight downloads is not modelled. The race between the existence check and the file creation is not modelled either. `DownloadAllSwap` states why the order of items does not matter when their destinations differ.
- Host filesystem failures are left out: `create_dir_all`, `File::create` and `write_all` always succeed in the model. In the program, a `write_all` that fails after `File::create` can leave an empty or partly written file. Later runs skip that file, because the path exists (src/main.rs:136-138). The model never produces such a file, so its resumability lemmas do not cover this case.
- `Path::join` is plain appending of a component. Absolute components, `..`, and separators inside a username or file name get no special meaning.
- The `Downloaded ...` progress line (src/main.rs:145) is left out, because it is output only.
- `title`, `user.id` and `user.name` are decoded by the program but never used. They are fields of the records and nothing more.
- Gifs: requires a ghost bound within which the cursor chain from the seed ends. The program has no such bound and would loop forever on a cursor cycle, a behaviour the model does not represent.
- Archive: requires the same ghost bound as `Gifs`, because it runs `Gifs` first.
