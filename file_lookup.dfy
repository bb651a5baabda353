/**
 * `load_files` of app.py: look up the image info of a list of titles on the wiki
 * API, 50 titles per request, and merge every returned page into one
 * title -> optional info map seeded with "no info" for every input title.
 *
 * The API (`session.get(continuation=True, action='query', titles=chunk,
 * prop=['imageinfo'], ...)`) is a function from a chunk of titles to the sequence
 * of responses that the continuation loop yields for it.
 */
module FileLookup {
  import opened Wrappers

  /** Titles per API request (the API's limit on `titles`). */
  const ChunkSize: nat := 50

  /** One `imageinfo` entry as the API returns it for `iiprop=url` and a 250x250 box. */
  datatype FileInfo = FileInfo(
    thumbUrl: string, thumbWidth: int, thumbHeight: int,
    url: string, descriptionUrl: string, descriptionShortUrl: string,
    responsiveUrls: map<string, string>)

  /** One element of `query.pages`: its `title` and `imageinfo` keys may be missing. */
  datatype ApiPage = ApiPage(title: Option<string>, imageInfo: Option<seq<FileInfo>>)

  /** A response's `query` object, whose `pages` key may be missing. */
  datatype Query = Query(pages: Option<seq<ApiPage>>)

  /** One API response, whose `query` key may be missing. */
  datatype Response = Response(query: Option<Query>)

  type Api = seq<string> -> seq<Response>

  type Files = map<string, Option<FileInfo>>

  function Min(a: int, b: int): int
  {
    if a <= b then a else b
  }

  /** `[titles[i:i+50] for i in range(0, len(titles), 50)]`. */
  function Chunks<T>(titles: seq<T>): (chunks: seq<seq<T>>)
  {
    var count := (|titles| + ChunkSize - 1) / ChunkSize;
    seq(count, k requires 0 <= k < count =>
      titles[k * ChunkSize .. Min(k * ChunkSize + ChunkSize, |titles|)])
  }

  /** The concatenation of a sequence of sequences. */
  function Flatten<T>(s: seq<seq<T>>): seq<T>
  {
    if s == [] then [] else Flatten(s[..|s| - 1]) + s[|s| - 1]
  }

  /** There are ceil(n/50) chunks, none for an empty title list. */
  lemma ChunkCount<T>(titles: seq<T>)
    ensures |titles| <= |Chunks(titles)| * ChunkSize < |titles| + ChunkSize
    ensures Chunks(titles) == [] <==> titles == []
  {
  }

  /** Every chunk has 1 to 50 titles, every chunk but the last exactly 50. */
  lemma ChunkSizes<T>(titles: seq<T>)
    ensures forall k :: 0 <= k < |Chunks(titles)| ==> 0 < |Chunks(titles)[k]| <= ChunkSize
    ensures forall k :: 0 <= k < |Chunks(titles)| - 1 ==> |Chunks(titles)[k]| == ChunkSize
  {
  }

  lemma {:induction false} ChunksPrefix<T>(titles: seq<T>, k: nat)
    requires k <= |Chunks(titles)|
    ensures Flatten(Chunks(titles)[..k]) == titles[..Min(k * ChunkSize, |titles|)]
  {
    var chunks := Chunks(titles);
    if k > 0 {
      ChunksPrefix(titles, k - 1);
      assert chunks[..k][..k - 1] == chunks[..k - 1];
      assert Flatten(chunks[..k]) == Flatten(chunks[..k - 1]) + chunks[k - 1];
      var lo := (k - 1) * ChunkSize;
      var hi := Min(lo + ChunkSize, |titles|);
      assert titles[..lo] + titles[lo..hi] == titles[..hi];
    }
  }

  /** The chunks, put back together in order, are the titles. */
  lemma ChunksConcatenate<T>(titles: seq<T>)
    ensures Flatten(Chunks(titles)) == titles
  {
    var chunks := Chunks(titles);
    ChunksPrefix(titles, |chunks|);
    assert chunks[..|chunks|] == chunks;
  }

  /** `response.get('query', {}).get('pages', [])`. */
  function PagesOf(response: Response): seq<ApiPage>
  {
    match response.query
    case None => []
    case Some(query) => match query.pages
      case None => []
      case Some(pages) => pages
  }

  /** `page['title']` and `page['imageinfo'][0]` both exist, so no LookupError. */
  predicate Informative(page: ApiPage)
  {
    page.title.Some? && page.imageInfo.Some? && |page.imageInfo.value| > 0
  }

  /** The page stores info under title `t`. */
  predicate StoresInfo(page: ApiPage, t: string)
  {
    Informative(page) && page.title.value == t
  }

  /** One pass of the innermost loop body, with its `except LookupError: pass`. */
  function Store(files: Files, page: ApiPage): Files
  {
    if Informative(page) then files[page.title.value := Some(page.imageInfo.value[0])] else files
  }

  /** The pages, in order, each stored on top of the previous ones. */
  function StoreAll(files: Files, pages: seq<ApiPage>): Files
  {
    if pages == [] then files else Store(StoreAll(files, pages[..|pages| - 1]), pages[|pages| - 1])
  }

  /** All pages of a sequence of responses, in order. */
  function ResponsePages(responses: seq<Response>): seq<ApiPage>
  {
    if responses == [] then []
    else ResponsePages(responses[..|responses| - 1]) + PagesOf(responses[|responses| - 1])
  }

  /** All pages the API returns for a sequence of chunks, in order. */
  function ChunkPages(chunks: seq<seq<string>>, api: Api): seq<ApiPage>
  {
    if chunks == [] then []
    else ChunkPages(chunks[..|chunks| - 1], api) + ResponsePages(api(chunks[|chunks| - 1]))
  }

  /** `dict.fromkeys(titles)`. */
  function SeedFiles(titles: seq<string>): (files: Files)
    ensures files.Keys == set t | t in titles
    ensures forall t :: t in files ==> files[t] == None
  {
    map t | t in titles :: None
  }

  /** Every page the API returns while `load_files(titles)` runs. */
  function ReturnedPages(titles: seq<string>, api: Api): seq<ApiPage>
  {
    ChunkPages(Chunks(titles), api)
  }

  /** What `load_files(titles)` returns. */
  function LoadedFiles(titles: seq<string>, api: Api): Files
  {
    StoreAll(SeedFiles(titles), ReturnedPages(titles, api))
  }

  lemma {:induction false} StoreAllAppend(files: Files, a: seq<ApiPage>, b: seq<ApiPage>)
    ensures StoreAll(files, a + b) == StoreAll(StoreAll(files, a), b)
  {
    if b != [] {
      assert (a + b)[..|a + b| - 1] == a + b[..|b| - 1];
      StoreAllAppend(files, a, b[..|b| - 1]);
    } else {
      assert a + b == a;
    }
  }

  /** `load_files`: the three nested loops over chunks, responses and pages. */
  method LoadFiles(titles: seq<string>, api: Api) returns (files: Files)
    ensures files == LoadedFiles(titles, api)
  {
    files := SeedFiles(titles);
    ghost var seed := files;
    var chunks := Chunks(titles);
    for i := 0 to |chunks|
      invariant files == StoreAll(seed, ChunkPages(chunks[..i], api))
    {
      ghost var before := ChunkPages(chunks[..i], api);
      var responses := api(chunks[i]);
      for j := 0 to |responses|
        invariant files == StoreAll(StoreAll(seed, before), ResponsePages(responses[..j]))
      {
        ghost var done := ResponsePages(responses[..j]);
        var pages := PagesOf(responses[j]);
        for k := 0 to |pages|
          invariant files == StoreAll(StoreAll(StoreAll(seed, before), done), pages[..k])
        {
          var page := pages[k];
          if page.title.Some? && page.imageInfo.Some? && |page.imageInfo.value| > 0 {
            files := files[page.title.value := Some(page.imageInfo.value[0])];
          }
          assert pages[..k + 1][..k] == pages[..k];
        }
        assert pages[..|pages|] == pages;
        assert responses[..j + 1][..j] == responses[..j];
        StoreAllAppend(StoreAll(seed, before), done, pages);
      }
      assert responses[..|responses|] == responses;
      assert chunks[..i + 1][..i] == chunks[..i];
      StoreAllAppend(seed, before, ResponsePages(responses));
    }
    assert chunks[..|chunks|] == chunks;
  }

  /** The keys after storing: the old ones and the titles of informative pages. */
  lemma {:induction false} StoreAllKeys(files: Files, pages: seq<ApiPage>, t: string)
    ensures t in StoreAll(files, pages) <==>
      t in files || exists j :: 0 <= j < |pages| && StoresInfo(pages[j], t)
  {
    if pages != [] {
      var init := pages[..|pages| - 1];
      StoreAllKeys(files, init, t);
      if exists j :: 0 <= j < |init| && StoresInfo(init[j], t) {
        var j :| 0 <= j < |init| && StoresInfo(init[j], t);
        assert pages[j] == init[j];
      }
      if exists j :: 0 <= j < |pages| && StoresInfo(pages[j], t) {
        var j :| 0 <= j < |pages| && StoresInfo(pages[j], t);
        if j < |init| { assert init[j] == pages[j]; }
      }
    }
  }

  /** A title no page stores info for keeps its old value. */
  lemma {:induction false} StoreAllUntouched(files: Files, pages: seq<ApiPage>, t: string)
    requires t in files
    requires forall j :: 0 <= j < |pages| ==> !StoresInfo(pages[j], t)
    ensures t in StoreAll(files, pages) && StoreAll(files, pages)[t] == files[t]
  {
    if pages != [] {
      var init := pages[..|pages| - 1];
      assert forall j :: 0 <= j < |init| ==> init[j] == pages[j];
      StoreAllUntouched(files, init, t);
    }
  }

  /** The last page that stores info for a title decides its value. */
  lemma {:induction false} StoreAllLastWins(files: Files, pages: seq<ApiPage>, t: string, j: nat)
    requires j < |pages| && StoresInfo(pages[j], t)
    requires forall k :: j < k < |pages| ==> !StoresInfo(pages[k], t)
    ensures t in StoreAll(files, pages)
    ensures StoreAll(files, pages)[t] == Some(pages[j].imageInfo.value[0])
  {
    var init := pages[..|pages| - 1];
    if j < |pages| - 1 {
      assert init[j] == pages[j];
      assert forall k :: j < k < |init| ==> init[k] == pages[k];
      StoreAllLastWins(files, init, t, j);
    }
  }

  /** A value present after storing came from the old map or from an informative page. */
  lemma {:induction false} StoreAllProvenance(files: Files, pages: seq<ApiPage>, t: string, info: FileInfo)
    requires t in StoreAll(files, pages) && StoreAll(files, pages)[t] == Some(info)
    ensures (t in files && files[t] == Some(info)) ||
      exists j :: 0 <= j < |pages| && StoresInfo(pages[j], t) && pages[j].imageInfo.value[0] == info
  {
    if pages != [] {
      var init := pages[..|pages| - 1];
      var last := pages[|pages| - 1];
      if !StoresInfo(last, t) {
        StoreAllProvenance(files, init, t, info);
        if !(t in files && files[t] == Some(info)) {
          var j :| 0 <= j < |init| && StoresInfo(init[j], t) && init[j].imageInfo.value[0] == info;
          assert pages[j] == init[j];
        }
      }
    }
  }

  /** Every input title is a key of the result. */
  lemma LoadedFilesCoverTitles(titles: seq<string>, api: Api, t: string)
    requires t in titles
    ensures t in LoadedFiles(titles, api)
  {
    StoreAllKeys(SeedFiles(titles), ReturnedPages(titles, api), t);
  }

  /**
   * The result's keys are the input titles and the titles of returned pages that
   * carry image info.
   */
  lemma LoadedFilesKeys(titles: seq<string>, api: Api, t: string)
    ensures t in LoadedFiles(titles, api) <==>
      t in titles || exists p :: p in ReturnedPages(titles, api) && StoresInfo(p, t)
  {
    var pages := ReturnedPages(titles, api);
    StoreAllKeys(SeedFiles(titles), pages, t);
    if exists p :: p in pages && StoresInfo(p, t) {
      var p :| p in pages && StoresInfo(p, t);
      var j :| 0 <= j < |pages| && pages[j] == p;
    }
  }

  /**
   * A title has info only if some returned page with that title had a non-empty
   * `imageinfo`, and the info is that list's first element.
   */
  lemma LoadedFilesInfoFromPage(titles: seq<string>, api: Api, t: string)
    requires t in LoadedFiles(titles, api) && LoadedFiles(titles, api)[t].Some?
    ensures exists p :: (p in ReturnedPages(titles, api) && StoresInfo(p, t) &&
                         p.imageInfo.value[0] == LoadedFiles(titles, api)[t].value)
  {
    var pages := ReturnedPages(titles, api);
    var info := LoadedFiles(titles, api)[t].value;
    StoreAllProvenance(SeedFiles(titles), pages, t, info);
    var j :| 0 <= j < |pages| && StoresInfo(pages[j], t) && pages[j].imageInfo.value[0] == info;
    assert pages[j] in pages;
  }

  /** An input title no returned page has image info for stays "no info". */
  lemma LoadedFilesNoInfo(titles: seq<string>, api: Api, t: string)
    requires t in titles
    requires forall p :: p in ReturnedPages(titles, api) ==> !StoresInfo(p, t)
    ensures t in LoadedFiles(titles, api) && LoadedFiles(titles, api)[t] == None
  {
    StoreAllUntouched(SeedFiles(titles), ReturnedPages(titles, api), t);
  }

  /** When several returned pages have info for a title, the last one wins. */
  lemma LoadedFilesLastPageWins(titles: seq<string>, api: Api, t: string, j: nat)
    requires j < |ReturnedPages(titles, api)| && StoresInfo(ReturnedPages(titles, api)[j], t)
    requires forall k :: j < k < |ReturnedPages(titles, api)| ==> !StoresInfo(ReturnedPages(titles, api)[k], t)
    ensures t in LoadedFiles(titles, api)
    ensures LoadedFiles(titles, api)[t] == Some(ReturnedPages(titles, api)[j].imageInfo.value[0])
  {
    StoreAllLastWins(SeedFiles(titles), ReturnedPages(titles, api), t, j);
  }

  /** No titles: no request is made and the result is empty. */
  lemma LoadedFilesEmpty(api: Api)
    ensures LoadedFiles([], api) == map[]
  {
  }
}
