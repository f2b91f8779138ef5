/** The pure first half of `download_gif` (src/main.rs:105-133): locate the
    source rendition's URL, take its extension, derive the date from the
    creation time, and format the destination directory and file name. */
module Planning {
  import opened Wrappers
  import opened Giphy
  import opened Text


  /** A filesystem path as its list of components; `Path::join` appends one. */
  type Path = seq<string>

  /** `serde_json::Value::get(key)`: the field of an object, nothing for any
      other kind of value. */
  function Get(v: Json, key: string): (r: Option<Json>)
    ensures r.Some? <==> v.JObj? && key in v.fields
    ensures r.Some? ==> r.value == v.fields[key]
  {
    if v.JObj? && key in v.fields then Some(v.fields[key]) else None
  }

  /** `serde_json::Value::as_str`. */
  function AsStr(v: Json): (r: Option<string>)
    ensures r.Some? <==> v.JStr?
    ensures r.Some? ==> r.value == v.str
  {
    if v.JStr? then Some(v.str) else None
  }

  /** The item really carries `images.source.url` as a string. */
  predicate HasSourceUrl(gif: Gif) {
    "source" in gif.images && gif.images["source"].JObj? &&
    "url" in gif.images["source"].fields && gif.images["source"].fields["url"].JStr?
  }

  /** The three-step lookup `images["source"]["url"].as_str()`; any missing
      step is `NoSourceVideo` with the item's id. */
  function SourceUrl(gif: Gif): (r: Result<Url, Error>)
    ensures r.Success? <==> HasSourceUrl(gif)
    ensures r.Success? ==> r.value == gif.images["source"].fields["url"].str
    ensures r.Failure? ==> r.error == NoSourceVideo(gif.id)
  {
    var source := if "source" in gif.images then Some(gif.images["source"]) else None;
    if source.None? then Failure(NoSourceVideo(gif.id))
    else
      var url := Get(source.value, "url");
      if url.None? then Failure(NoSourceVideo(gif.id))
      else
        var str := AsStr(url.value);
        if str.None? then Failure(NoSourceVideo(gif.id))
        else Success(str.value)
  }

  /** `ext` is what follows the last `.` of `url`. */
  predicate IsExtensionOf(ext: string, url: Url) {
    |ext| < |url| && url[|url| - |ext| - 1] == '.' && url[|url| - |ext|..] == ext && '.' !in ext
  }

  /** `date` is the text of `time` before its first `T`, without any `-`. */
  ghost predicate IsDateOf(date: string, time: string) {
    exists k :: 0 <= k < |time| && time[k] == 'T' && 'T' !in time[..k] && date == RemoveAll(time[..k], '-')
  }

  /** A URL names at most one extension. */
  lemma ExtensionUnique(url: Url, e1: string, e2: string)
    requires IsExtensionOf(e1, url) && IsExtensionOf(e2, url)
    ensures e1 == e2
  {
  }

  /** A creation time names at most one date. */
  lemma DateUnique(time: string, d1: string, d2: string)
    requires IsDateOf(d1, time) && IsDateOf(d2, time)
    ensures d1 == d2
  {
  }

  /** `source_url.rsplit_once('.')...1`; no `.` is `NoSourceVideo`. */
  function Extension(url: Url, gifId: string): (r: Result<string, Error>)
    ensures r.Failure? <==> '.' !in url
    ensures r.Failure? ==> r.error == NoSourceVideo(gifId)
    ensures r.Success? ==> IsExtensionOf(r.value, url)
  {
    match RSplitOnce(url, '.')
    case None => Failure(NoSourceVideo(gifId))
    case Some((before, ext)) =>
      assert url == before + "." + ext;
      Success(ext)
  }

  /** `create_time.split_once('T')...0.replace('-', "")`; no `T` is
      `InvalidDate` carrying the raw creation time. */
  function Date(time: string): (r: Result<string, Error>)
    ensures r.Failure? <==> 'T' !in time
    ensures r.Failure? ==> r.error == InvalidDate(time)
    ensures r.Success? ==> IsDateOf(r.value, time) && 'T' !in r.value && '-' !in r.value
  {
    match SplitOnce(time, 'T')
    case None => Failure(InvalidDate(time))
    case Some((before, after)) =>
      assert time == before + "T" + after;
      var k := |before|;
      assert time[k] == 'T' && time[..k] == before;
      Success(RemoveAll(before, '-'))
  }

  /** `format!("{}_{}_{:012}_{}.{}", date, username, index_id, id, ext)`. */
  function FileName(date: string, username: string, indexId: U64, gifId: string, ext: string): (r: string)
    ensures |r| == |date| + |username| + |ZeroPad(indexId, 12)| + |gifId| + |ext| + 4
  {
    date + "_" + username + "_" + ZeroPad(indexId, 12) + "_" + gifId + "." + ext
  }

  /** How a file name reads: the date and `_`, the username and `_`, a
      block of at least twelve digits naming `index_id`, and finally `.`
      and the extension. */
  lemma FileNameLayout(date: string, username: string, indexId: U64, gifId: string, ext: string)
    ensures var r := FileName(date, username, indexId, gifId, ext);
      && r[..|date|] == date && r[|date|] == '_'
      && r[|date| + 1..|date| + 1 + |username|] == username && r[|date| + 1 + |username|] == '_'
      && r[|r| - |ext| - 1] == '.' && r[|r| - |ext|..] == ext
    ensures var r := FileName(date, username, indexId, gifId, ext);
      var k := |date| + |username| + 2;
      var block := r[k..k + |ZeroPad(indexId, 12)|];
      |block| >= 12 && AllDigits(block) && ParseDecimal(block) == indexId
  {
    var pad := ZeroPad(indexId, 12);
    var r := FileName(date, username, indexId, gifId, ext);
    var k := |date| + |username| + 2;
    assert r[k..k + |pad|] == pad;
    assert r[..|date|] == date;
    assert r[|date| + 1..|date| + 1 + |username|] == username;
    assert r[|r| - |ext|..] == ext;
  }

  /** Everything `download_gif` derives before touching the filesystem. */
  datatype Plan = Plan(sourceUrl: Url, ext: string, date: string, fileName: string, dir: Path, path: Path)

  /** The planning steps of `download_gif`, in the program's order: source
      URL, extension, date, then the destination
      `base/username/{date}_{username}_{index:012}_{id}.{ext}`. */
  function PlanGif(gif: Gif, base: Path): (r: Result<Plan, Error>)
    ensures !HasSourceUrl(gif) ==> r == Failure(NoSourceVideo(gif.id))
    ensures HasSourceUrl(gif) && '.' !in gif.images["source"].fields["url"].str ==>
      r == Failure(NoSourceVideo(gif.id))
    ensures HasSourceUrl(gif) && '.' in gif.images["source"].fields["url"].str && 'T' !in gif.createTime ==>
      r == Failure(InvalidDate(gif.createTime))
    ensures r.Success? <==>
      HasSourceUrl(gif) && '.' in gif.images["source"].fields["url"].str && 'T' in gif.createTime
    ensures r.Success? ==>
      var p := r.value;
      && p.sourceUrl == gif.images["source"].fields["url"].str
      && IsExtensionOf(p.ext, p.sourceUrl)
      && IsDateOf(p.date, gif.createTime) && 'T' !in p.date && '-' !in p.date
      && p.fileName == p.date + "_" + gif.user.username + "_" + ZeroPad(gif.indexId, 12) + "_" + gif.id + "." + p.ext
      && p.dir == base + [gif.user.username]
      && p.path == p.dir + [p.fileName]
  {
    var sourceUrl :- SourceUrl(gif);
    var ext :- Extension(sourceUrl, gif.id);
    var date :- Date(gif.createTime);
    var fileName := FileName(date, gif.user.username, gif.indexId, gif.id, ext);
    var dir := base + [gif.user.username];
    Success(Plan(sourceUrl, ext, date, fileName, dir, dir + [fileName]))
  }

  /** The padded index block of a file name: at least twelve digits, reading
      back as the item's `index_id`. */
  lemma IndexBlock(gif: Gif)
    ensures var block := ZeroPad(gif.indexId, 12);
      |block| >= 12 && AllDigits(block) && ParseDecimal(block) == gif.indexId
      && (gif.indexId < 1_000_000_000_000 ==> |block| == 12)
  {
    var n: nat := gif.indexId;
    if n < 1_000_000_000_000 {
      DecimalLength(n, 12);
    }
  }

  /** A number below 10^k prints in at most k digits. */
  lemma {:induction false} DecimalLength(n: nat, k: nat)
    requires n < Pow10(k)
    ensures |Decimal(n)| <= k || k == 0
    decreases k
  {
    if k > 1 && n >= 10 {
      DecimalLength(n / 10, k - 1);
    }
  }

  function Pow10(k: nat): nat {
    if k == 0 then 1 else 10 * Pow10(k - 1)
  }
}
