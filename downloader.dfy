/** services/downloader.py: the bookkeeping of `WebsiteDownloader`. The
    browser, the HTTP session, the HTML parser and the file system are
    foreign code; they are given as a `Web` value that answers each request
    the way the outside world did. Only what the downloader itself decides
    is modelled: which URLs it visits, which files it writes under which
    names, and its counters. */
module Downloader {
  import opened Common
  import opened PyStr
  import Helpers

  /** How many extracted links `download_website` follows at most. */
  const MaxLinkedPages: nat := 10

  /** What a rendered page yields: the size of the HTML file written for it,
      and the attribute values the parser finds on `<link rel=stylesheet>`,
      `<script src>` and `<img src>` tags, in document order. A missing
      attribute is the empty string, which the code skips like any falsy
      value. */
  datatype Rendered = Rendered(fileSize: nat, stylesheets: seq<string>, scripts: seq<string>, images: seq<string>)

  /** The HTTP status and body length of a resource request. */
  datatype Response = Response(status: int, length: nat)

  /** The outside world as the downloader sees it:
      - `parse`: `urlparse`;
      - `join`: `urljoin`;
      - `render`: a Playwright page load and `page.content()`, `None` when it raises;
      - `anchors`: the `a.href` values the page script returns, `None` when it raises;
      - `origin`: `window.location.origin` of the loaded page;
      - `fetch`: an aiohttp GET, `None` when it raises;
      - `hash`: Python's `hash` of a string. */
  datatype Web = Web(
    parse: string -> Helpers.ParsedUrl,
    join: (string, string) -> string,
    render: string -> Option<Rendered>,
    anchors: string -> Option<seq<string>>,
    origin: string -> string,
    fetch: string -> Option<Response>,
    hash: string -> int)

  /** The tag a resource was found on; it names the subdirectory it is saved
      in: "css", "js" or "images". */
  datatype Kind = Css | Js | Images

  // ---------------------------------------------------------------------------
  // File names. Each component the code joins is free of '/', so a path is
  // determined by its components.

  /** The directory of one site: the output directory and the site's name. */
  datatype Dir = Dir(outputDir: string, site: string)

  /** A page file in the site directory, or a resource file in the
      subdirectory of its kind. */
  datatype FilePath = PageFile(dir: Dir, name: string) | ResourceFile(dir: Dir, kind: Kind, name: string)

  /** `os.path.basename`: what follows the last '/'. */
  function Basename(p: string): (r: string)
    ensures EndsWith(p, r)
    ensures forall i :: 0 <= i < |r| ==> r[i] != '/'
    ensures (forall i :: 0 <= i < |p| ==> p[i] != '/') ==> r == p
  {
    var k := RFind(p, '/');
    assert |p| - |p[k + 1..]| == k + 1;
    assert k >= 0 ==> p[k] == '/';
    p[k + 1..]
  }

  /** The file name `download_page` writes for a URL path: the sanitised path
      (or "index") with ".html" appended, and "index.html" when that leaves
      nothing before the suffix. */
  function PageName(path: string): (r: string)
  {
    var f := Helpers.SanitizeFilename(if path == "" then "index" else path) + ".html";
    if f == ".html" then "index.html" else f
  }

  /** A page file name always ends in ".html", has something before it, and
      the part before it contains none of the characters `sanitize_filename`
      replaces. */
  lemma PageNameShape(path: string)
    ensures EndsWith(PageName(path), ".html")
    ensures |PageName(path)| > 5
    ensures Helpers.NoUnsafeChar(PageName(path)[..|PageName(path)| - 5])
  {
    var s := Helpers.SanitizeFilename(if path == "" then "index" else path);
    if s == "" {
      assert s + ".html" == ".html";
      IndexHtml();
    } else {
      assert |s + ".html"| > 5;
      HtmlSuffix(s);
    }
  }

  lemma HtmlSuffix(s: string)
    ensures EndsWith(s + ".html", ".html") && (s + ".html")[..|s|] == s
  {
    assert (s + ".html")[|s|..] == ".html";
  }

  lemma IndexHtml()
    ensures EndsWith("index.html", ".html") && Helpers.NoUnsafeChar("index.html"[..5])
  {
    assert "index.html"[5..] == ".html";
    assert "index.html"[..5] == "index";
  }

  /** The root path "/" becomes "_.html". */
  lemma PageNameRoot()
    ensures PageName("/") == "_.html"
  {
    var u := Helpers.ReplaceUnsafe("/");
    assert u == "_" by {
      assert |u| == 1 && u[0] == '_';
    }
    assert Helpers.SanitizeFilename("/") == "_";
    assert "_" + ".html" == "_.html";
  }

  /** An empty path becomes "index.html". */
  lemma PageNameEmpty()
    ensures PageName("") == "index.html"
  {
    Helpers.SanitizeFilenameKeepsCleanNames("index");
    assert "index" + ".html" == "index.html";
  }

  /** The file name of a resource: the basename of its URL path, or
      "resource_" and the URL's hash when the basename is empty. */
  function ResourceName(web: Web, url: string): (r: string)
    ensures r != ""
  {
    var b := Basename(web.parse(url).path);
    if b == "" then "resource_" + IntToString(web.hash(url)) else b
  }

  /** A resource reference not starting with "http" or "//" is resolved
      against the site's base URL. */
  function Absolute(web: Web, baseUrl: string, raw: string): string
  {
    if StartsWith(raw, "http") || StartsWith(raw, "//") then raw else web.join(baseUrl, raw)
  }

  // ---------------------------------------------------------------------------
  // The downloader's state as a value, and each operation as a function of it.

  /** `downloaded_files`, `total_files`, `total_size`, and the paths written so
      far, in order. */
  datatype Crawl = Crawl(seen: set<string>, files: nat, size: nat, written: seq<FilePath>)

  /** Every file written is counted, and each came from a URL visited for the
      first time, so there are never more files than visited URLs. */
  predicate Inv(c: Crawl)
  {
    c.files == |c.written| && c.files <= |c.seen|
  }

  /** `d` is `c` after more work: nothing visited is forgotten, the counters
      have not decreased, and earlier writes are still listed first. */
  predicate Grows(c: Crawl, d: Crawl)
  {
    c.seen <= d.seen && c.files <= d.files && c.size <= d.size && c.written <= d.written
  }

  lemma GrowsTransitive(c: Crawl, d: Crawl, e: Crawl)
    requires Grows(c, d) && Grows(d, e)
    ensures Grows(c, e)
  {
    assert e.written[..|d.written|][..|c.written|] == e.written[..|c.written|];
  }

  /** Marks a URL visited. */
  function Visit(c: Crawl, url: string): Crawl
  {
    c.(seen := c.seen + {url})
  }

  /** Counts one written file of `bytes` bytes. */
  function Record(c: Crawl, path: FilePath, bytes: nat): Crawl
  {
    c.(files := c.files + 1, size := c.size + bytes, written := c.written + [path])
  }

  /** Where `download_resource` writes a resource. */
  function ResourcePath(web: Web, dir: Dir, url: string, kind: Kind): FilePath
  {
    ResourceFile(dir, kind, ResourceName(web, url))
  }

  /** An answer `download_resource` saves. */
  predicate Saved(resp: Option<Response>)
  {
    resp.Some? && resp.value.status == 200
  }

  /** `download_resource`. */
  function FetchResource(c: Crawl, web: Web, baseUrl: string, dir: Dir, raw: string, kind: Kind): Crawl
  {
    var url := Absolute(web, baseUrl, raw);
    if url in c.seen then c
    else if Saved(web.fetch(url)) then
      Record(Visit(c, url), ResourcePath(web, dir, url, kind), web.fetch(url).value.length)
    else Visit(c, url)
  }

  /** A resource URL already visited is skipped with nothing changed; otherwise
      it is visited once, and exactly a status-200 answer adds one file, named
      by its basename, in the subdirectory of its kind, with its byte count. */
  lemma FetchResourceProperties(c: Crawl, web: Web, baseUrl: string, dir: Dir, raw: string, kind: Kind)
    ensures var r := FetchResource(c, web, baseUrl, dir, raw, kind);
      var url := Absolute(web, baseUrl, raw);
      var resp := web.fetch(url);
      && Grows(c, r)
      && r.seen == c.seen + {url}
      && (url in c.seen ==> r == c)
      && (url !in c.seen && Saved(resp) ==>
            r.files == c.files + 1 && r.size == c.size + resp.value.length
            && r.written == c.written + [ResourcePath(web, dir, url, kind)])
      && (!(url !in c.seen && Saved(resp)) ==>
            r.files == c.files && r.size == c.size && r.written == c.written)
      && (Inv(c) ==> Inv(r))
  {
  }

  /** One of the three loops of `download_resources`: each non-empty value,
      in order. */
  function FetchAll(c: Crawl, web: Web, baseUrl: string, dir: Dir, raws: seq<string>, kind: Kind): Crawl
    decreases |raws|
  {
    if |raws| == 0 then c
    else
      var before := FetchAll(c, web, baseUrl, dir, raws[..|raws| - 1], kind);
      var raw := raws[|raws| - 1];
      if raw == "" then before else FetchResource(before, web, baseUrl, dir, raw, kind)
  }

  lemma {:induction false} FetchAllGrows(c: Crawl, web: Web, baseUrl: string, dir: Dir, raws: seq<string>, kind: Kind)
    ensures Grows(c, FetchAll(c, web, baseUrl, dir, raws, kind))
    ensures Inv(c) ==> Inv(FetchAll(c, web, baseUrl, dir, raws, kind))
    decreases |raws|
  {
    if |raws| > 0 {
      var before := FetchAll(c, web, baseUrl, dir, raws[..|raws| - 1], kind);
      FetchAllGrows(c, web, baseUrl, dir, raws[..|raws| - 1], kind);
      FetchResourceProperties(before, web, baseUrl, dir, raws[|raws| - 1], kind);
      GrowsTransitive(c, before, FetchAll(c, web, baseUrl, dir, raws, kind));
    }
  }

  /** `download_resources`: stylesheets, then scripts, then images. */
  function PageResources(c: Crawl, web: Web, baseUrl: string, dir: Dir, page: Rendered): Crawl
  {
    var c1 := FetchAll(c, web, baseUrl, dir, page.stylesheets, Css);
    var c2 := FetchAll(c1, web, baseUrl, dir, page.scripts, Js);
    FetchAll(c2, web, baseUrl, dir, page.images, Images)
  }

  lemma PageResourcesGrows(c: Crawl, web: Web, baseUrl: string, dir: Dir, page: Rendered)
    ensures Grows(c, PageResources(c, web, baseUrl, dir, page))
    ensures Inv(c) ==> Inv(PageResources(c, web, baseUrl, dir, page))
  {
    var c1 := FetchAll(c, web, baseUrl, dir, page.stylesheets, Css);
    var c2 := FetchAll(c1, web, baseUrl, dir, page.scripts, Js);
    FetchAllGrows(c, web, baseUrl, dir, page.stylesheets, Css);
    FetchAllGrows(c1, web, baseUrl, dir, page.scripts, Js);
    FetchAllGrows(c2, web, baseUrl, dir, page.images, Images);
    GrowsTransitive(c, c1, c2);
    GrowsTransitive(c, c2, PageResources(c, web, baseUrl, dir, page));
  }

  /** Where `download_page` writes a URL's HTML. */
  function PagePath(web: Web, dir: Dir, url: string): FilePath
  {
    PageFile(dir, PageName(web.parse(url).path))
  }

  /** `download_page`: the new state and the path returned. */
  function FetchPage(c: Crawl, web: Web, baseUrl: string, dir: Dir, url: string): (Crawl, Option<FilePath>)
  {
    if url in c.seen then (c, None)
    else if web.render(url).None? then (Visit(c, url), None)
    else
      (PageResources(Record(Visit(c, url), PagePath(web, dir, url), web.render(url).value.fileSize),
                     web, baseUrl, dir, web.render(url).value),
       Some(PagePath(web, dir, url)))
  }

  /** A page already visited gives `None` and changes nothing. Otherwise it is
      visited; a failed load gives `None` and changes no counter; a loaded page
      is written first, as an ".html" file in `dir`, counted with its size,
      before its resources are fetched. */
  lemma FetchPageProperties(c: Crawl, web: Web, baseUrl: string, dir: Dir, url: string)
    ensures var (r, path) := FetchPage(c, web, baseUrl, dir, url);
      && Grows(c, r)
      && url in r.seen
      && (url in c.seen ==> r == c && path.None?)
      && (url !in c.seen && web.render(url).None? ==>
            path.None? && r == c.(seen := c.seen + {url}))
      && (url !in c.seen && web.render(url).Some? ==>
            && path == Some(PagePath(web, dir, url))
            && r.files >= c.files + 1
            && r.size >= c.size + web.render(url).value.fileSize
            && |r.written| > |c.written| && r.written[|c.written|] == path.value)
      && (path.Some? ==> path.value.PageFile? && EndsWith(path.value.name, ".html"))
      && (Inv(c) ==> Inv(r))
  {
    if url !in c.seen && web.render(url).Some? {
      var page := web.render(url).value;
      var path := PagePath(web, dir, url);
      var c2 := Record(Visit(c, url), path, page.fileSize);
      PageResourcesGrows(c2, web, baseUrl, dir, page);
      PageNameShape(web.parse(url).path);
      var r := PageResources(c2, web, baseUrl, dir, page);
      assert r.written[..|c2.written|] == c2.written;
      assert r.written[|c.written|] == r.written[..|c2.written|][|c.written|];
    }
  }

  /** Visiting a URL twice: the second visit is a no-op. */
  lemma FetchPageOnce(c: Crawl, web: Web, baseUrl: string, dir: Dir, url: string)
    ensures var r := FetchPage(c, web, baseUrl, dir, url).0;
            FetchPage(r, web, baseUrl, dir, url) == (r, None)
  {
    FetchPageProperties(c, web, baseUrl, dir, url);
  }

  // extract_links

  /** Keeps the first occurrence of each element. */
  function Dedup(s: seq<string>): (r: seq<string>)
    ensures NoDup(r)
    ensures forall x :: x in r <==> x in s
    decreases |s|
  {
    if |s| == 0 then []
    else
      var d := Dedup(s[..|s| - 1]);
      var x := s[|s| - 1];
      assert forall y :: y in s <==> y in s[..|s| - 1] || y == x;
      if x in d then d else (NoDupAppend(d, x); d + [x])
  }

  /** The hrefs the page script keeps: those starting with the page's origin
      and containing no '#'. */
  predicate Followable(web: Web, url: string, href: string)
  {
    StartsWith(href, web.origin(url)) && !Contains(href, "#")
  }

  /** The followable hrefs, in order. */
  function FollowableOf(web: Web, url: string, hrefs: seq<string>): (r: seq<string>)
    ensures forall h :: h in r <==> h in hrefs && Followable(web, url, h)
    decreases |hrefs|
  {
    if |hrefs| == 0 then []
    else
      var rest := FollowableOf(web, url, hrefs[..|hrefs| - 1]);
      var h := hrefs[|hrefs| - 1];
      assert forall y :: y in hrefs <==> y in hrefs[..|hrefs| - 1] || y == h;
      if Followable(web, url, h) then rest + [h] else rest
  }

  /** `extract_links`: the followable hrefs of the page, each once; no links
      when loading the page raises. */
  function ExtractLinks(web: Web, url: string): (r: seq<string>)
    ensures NoDup(r)
    ensures forall h :: h in r <==>
      web.anchors(url).Some? && h in web.anchors(url).value && Followable(web, url, h)
  {
    match web.anchors(url)
    case None => []
    case Some(hrefs) => Dedup(FollowableOf(web, url, hrefs))
  }

  // download_website

  /** The loop of `download_website`: each link in turn, while the total size
      is below the ceiling. */
  function VisitLinks(c: Crawl, web: Web, baseUrl: string, dir: Dir, links: seq<string>, maxSize: int): Crawl
    decreases |links|
  {
    if |links| == 0 then c
    else
      var before := VisitLinks(c, web, baseUrl, dir, links[..|links| - 1], maxSize);
      if before.size < maxSize then FetchPage(before, web, baseUrl, dir, links[|links| - 1]).0 else before
  }

  lemma {:induction false} VisitLinksGrows(c: Crawl, web: Web, baseUrl: string, dir: Dir, links: seq<string>, maxSize: int)
    ensures Grows(c, VisitLinks(c, web, baseUrl, dir, links, maxSize))
    ensures Inv(c) ==> Inv(VisitLinks(c, web, baseUrl, dir, links, maxSize))
    decreases |links|
  {
    if |links| > 0 {
      var before := VisitLinks(c, web, baseUrl, dir, links[..|links| - 1], maxSize);
      VisitLinksGrows(c, web, baseUrl, dir, links[..|links| - 1], maxSize);
      FetchPageProperties(before, web, baseUrl, dir, links[|links| - 1]);
      GrowsTransitive(c, before, VisitLinks(c, web, baseUrl, dir, links, maxSize));
    }
  }

  /** Once the total size has reached the ceiling, no further link is fetched:
      the size never shrinks, so every later test fails too. */
  lemma {:induction false} CeilingStops(c: Crawl, web: Web, baseUrl: string, dir: Dir, links: seq<string>, maxSize: int)
    requires c.size >= maxSize
    ensures VisitLinks(c, web, baseUrl, dir, links, maxSize) == c
    decreases |links|
  {
    if |links| > 0 {
      CeilingStops(c, web, baseUrl, dir, links[..|links| - 1], maxSize);
    }
  }

  /** The directory `download_website` writes into: the output directory and
      the sanitised network location. */
  function SiteDir(web: Web, url: string, outputDir: string): Dir
  {
    Dir(outputDir, Helpers.SanitizeFilename(web.parse(url).netloc))
  }

  /** `scheme://netloc` of the URL. */
  function BaseUrl(web: Web, url: string): string
  {
    web.parse(url).scheme + "://" + web.parse(url).netloc
  }

  /** `download_website`: the main page; then, if it was written, at most the
      first ten extracted links. */
  function Website(c: Crawl, web: Web, url: string, outputDir: string, maxSize: int): Crawl
  {
    var baseUrl := BaseUrl(web, url);
    var dir := SiteDir(web, url, outputDir);
    var (c1, main) := FetchPage(c, web, baseUrl, dir, url);
    if main.None? then c1
    else VisitLinks(c1, web, baseUrl, dir, Take(ExtractLinks(web, url), MaxLinkedPages), maxSize)
  }

  /** A crawl only adds work, keeps the invariant and visits the main URL.
      When the main page yields no file (already visited, or its load failed),
      no linked page is fetched: the state is that left by the main page
      alone. */
  lemma WebsiteProperties(c: Crawl, web: Web, url: string, outputDir: string, maxSize: int)
    ensures var r := Website(c, web, url, outputDir, maxSize);
      && Grows(c, r)
      && url in r.seen
      && (Inv(c) ==> Inv(r))
      && (FetchPage(c, web, BaseUrl(web, url), SiteDir(web, url, outputDir), url).1.None? ==>
            r == FetchPage(c, web, BaseUrl(web, url), SiteDir(web, url, outputDir), url).0)
  {
    var baseUrl := BaseUrl(web, url);
    var dir := SiteDir(web, url, outputDir);
    var (c1, main) := FetchPage(c, web, baseUrl, dir, url);
    FetchPageProperties(c, web, baseUrl, dir, url);
    var links := Take(ExtractLinks(web, url), MaxLinkedPages);
    VisitLinksGrows(c1, web, baseUrl, dir, links, maxSize);
    GrowsTransitive(c, c1, Website(c, web, url, outputDir, maxSize));
  }

  /** `download_page` on each URL in turn, with no ceiling test. */
  function FetchPages(c: Crawl, web: Web, baseUrl: string, dir: Dir, urls: seq<string>): Crawl
  {
    FoldLeft((d: Crawl, u: string) => FetchPage(d, web, baseUrl, dir, u).0, c, urls)
  }

  /** The links the loop of `download_website` hands to `download_page`:
      those reached while the total size is still below the ceiling. */
  function Followed(c: Crawl, web: Web, baseUrl: string, dir: Dir, links: seq<string>, maxSize: int): seq<string>
    decreases |links|
  {
    if |links| == 0 then []
    else
      var before := VisitLinks(c, web, baseUrl, dir, links[..|links| - 1], maxSize);
      var done := Followed(c, web, baseUrl, dir, links[..|links| - 1], maxSize);
      if before.size < maxSize then done + [links[|links| - 1]] else done
  }

  /** The followed links are at most as many as the links given, and each
      is one of them. */
  lemma {:induction false} FollowedAmongLinks(c: Crawl, web: Web, baseUrl: string, dir: Dir,
                                              links: seq<string>, maxSize: int)
    ensures |Followed(c, web, baseUrl, dir, links, maxSize)| <= |links|
    ensures forall u :: u in Followed(c, web, baseUrl, dir, links, maxSize) ==> u in links
    decreases |links|
  {
    if |links| > 0 {
      var prefix := links[..|links| - 1];
      FollowedAmongLinks(c, web, baseUrl, dir, prefix, maxSize);
      assert forall u :: u in prefix ==> u in links;
    }
  }

  /** The loop is `download_page` on exactly the followed links, in order. */
  lemma {:induction false} VisitLinksFetchesFollowed(c: Crawl, web: Web, baseUrl: string, dir: Dir,
                                                     links: seq<string>, maxSize: int)
    ensures VisitLinks(c, web, baseUrl, dir, links, maxSize)
         == FetchPages(c, web, baseUrl, dir, Followed(c, web, baseUrl, dir, links, maxSize))
    decreases |links|
  {
    if |links| > 0 {
      var prefix := links[..|links| - 1];
      var done := Followed(c, web, baseUrl, dir, prefix, maxSize);
      VisitLinksFetchesFollowed(c, web, baseUrl, dir, prefix, maxSize);
      if VisitLinks(c, web, baseUrl, dir, prefix, maxSize).size < maxSize {
        assert (done + [links[|links| - 1]])[..|done|] == done;
      }
    }
  }

  /** The links `download_website` follows after the main page, given what
      `download_page` returned for it: none when it returned `None`, otherwise
      the followed links among the first ten extracted. */
  function FollowedAfter(main: (Crawl, Option<FilePath>), web: Web, baseUrl: string, dir: Dir,
                         url: string, maxSize: int): seq<string>
  {
    if main.1.None? then []
    else Followed(main.0, web, baseUrl, dir, Take(ExtractLinks(web, url), MaxLinkedPages), maxSize)
  }

  /** Whatever the main page left, at most ten links follow, each among the
      first ten extracted. */
  lemma FollowedAfterBound(main: (Crawl, Option<FilePath>), web: Web, baseUrl: string, dir: Dir,
                           url: string, maxSize: int)
    ensures |FollowedAfter(main, web, baseUrl, dir, url, maxSize)| <= MaxLinkedPages
    ensures forall u :: u in FollowedAfter(main, web, baseUrl, dir, url, maxSize)
                        ==> u in Take(ExtractLinks(web, url), MaxLinkedPages)
  {
    if main.1.Some? {
      FollowedAmongLinks(main.0, web, baseUrl, dir, Take(ExtractLinks(web, url), MaxLinkedPages), maxSize);
    }
  }

  /** The pages `download_website` hands to `download_page`: the main URL,
      then the links it follows. */
  function WebsitePages(c: Crawl, web: Web, baseUrl: string, dir: Dir, url: string, maxSize: int): seq<string>
  {
    [url] + FollowedAfter(FetchPage(c, web, baseUrl, dir, url), web, baseUrl, dir, url, maxSize)
  }

  /** Downloading the main URL and then `rest` is downloading `rest` from
      the state the main page left. */
  lemma FetchPagesFromMain(c: Crawl, web: Web, baseUrl: string, dir: Dir, url: string, rest: seq<string>)
    ensures FetchPages(c, web, baseUrl, dir, [url] + rest)
         == FetchPages(FetchPage(c, web, baseUrl, dir, url).0, web, baseUrl, dir, rest)
  {
    var step := (d: Crawl, u: string) => FetchPage(d, web, baseUrl, dir, u).0;
    assert [url][..0] == [];
    assert FoldLeft(step, c, [url]) == step(c, url);
    FoldLeftAppend(step, c, [url], rest);
  }

  /** A crawl is `download_page` on each of `WebsitePages` in turn. */
  lemma WebsiteIsFetchPages(c: Crawl, web: Web, url: string, outputDir: string, maxSize: int)
    ensures var baseUrl := BaseUrl(web, url);
      var dir := SiteDir(web, url, outputDir);
      Website(c, web, url, outputDir, maxSize)
        == FetchPages(c, web, baseUrl, dir, WebsitePages(c, web, baseUrl, dir, url, maxSize))
  {
    var baseUrl := BaseUrl(web, url);
    var dir := SiteDir(web, url, outputDir);
    var (c1, main) := FetchPage(c, web, baseUrl, dir, url);
    var links := Take(ExtractLinks(web, url), MaxLinkedPages);
    if main.None? {
      FetchPagesFromMain(c, web, baseUrl, dir, url, []);
      assert [url] + [] == [url];
    } else {
      FetchPagesFromMain(c, web, baseUrl, dir, url, Followed(c1, web, baseUrl, dir, links, maxSize));
      VisitLinksFetchesFollowed(c1, web, baseUrl, dir, links, maxSize);
    }
  }

  /** Whatever `download_page` returned for the main URL, the main URL comes
      first and at most ten pages follow it, each among the first ten links
      extracted from the main page. */
  lemma WebsitePagesBound(main: (Crawl, Option<FilePath>), web: Web, baseUrl: string, dir: Dir,
                          url: string, maxSize: int)
    ensures var pages := [url] + FollowedAfter(main, web, baseUrl, dir, url, maxSize);
      && 1 <= |pages| <= 1 + MaxLinkedPages && pages[0] == url
      && forall i :: 1 <= i < |pages| ==> pages[i] in Take(ExtractLinks(web, url), MaxLinkedPages)
  {
    var followed := FollowedAfter(main, web, baseUrl, dir, url, maxSize);
    FollowedAfterBound(main, web, baseUrl, dir, url, maxSize);
    var pages := [url] + followed;
    assert forall i :: 1 <= i < |pages| ==> pages[i] == followed[i - 1];
  }

  /** The 10-link cap: a crawl is `download_page` on the main URL and then on
      at most ten more pages, each of them among the first ten links
      extracted from the main page. */
  lemma WebsiteFetchesAtMostTenLinks(c: Crawl, web: Web, url: string, outputDir: string, maxSize: int)
    ensures var baseUrl := BaseUrl(web, url);
      var dir := SiteDir(web, url, outputDir);
      var pages := WebsitePages(c, web, baseUrl, dir, url, maxSize);
      && Website(c, web, url, outputDir, maxSize) == FetchPages(c, web, baseUrl, dir, pages)
      && 1 <= |pages| <= 1 + MaxLinkedPages && pages[0] == url
      && forall i :: 1 <= i < |pages| ==> pages[i] in Take(ExtractLinks(web, url), MaxLinkedPages)
  {
    var baseUrl := BaseUrl(web, url);
    var dir := SiteDir(web, url, outputDir);
    WebsiteIsFetchPages(c, web, url, outputDir, maxSize);
    WebsitePagesBound(FetchPage(c, web, baseUrl, dir, url), web, baseUrl, dir, url, maxSize);
  }

  // ---------------------------------------------------------------------------

  class WebsiteDownloader {
    var downloadedFiles: set<string>
    var totalFiles: nat
    var totalSize: nat
    /** The files written, in order; the file system itself is not modelled. */
    var written: seq<FilePath>

    ghost function State(): Crawl
      reads this
    {
      Crawl(downloadedFiles, totalFiles, totalSize, written)
    }

    ghost predicate Valid()
      reads this
    {
      Inv(State())
    }

    constructor ()
      ensures Valid()
      ensures downloadedFiles == {} && totalFiles == 0 && totalSize == 0 && written == []
    {
      downloadedFiles, totalFiles, totalSize, written := {}, 0, 0, [];
    }

    /** `self.downloaded_files.add(url)`. */
    method MarkVisited(url: string)
      modifies this
      ensures State() == Visit(old(State()), url)
    {
      downloadedFiles := downloadedFiles + {url};
    }

    /** The statistics update after a file is written. */
    method CountFile(path: FilePath, bytes: nat)
      modifies this
      ensures State() == Record(old(State()), path, bytes)
    {
      written := written + [path];
      totalSize := totalSize + bytes;
      totalFiles := totalFiles + 1;
    }

    /** `download_resource`. A failed request still marks the URL visited. */
    method DownloadResource(web: Web, baseUrl: string, dir: Dir, raw: string, kind: Kind)
      requires Valid()
      modifies this
      ensures Valid()
      ensures State() == FetchResource(old(State()), web, baseUrl, dir, raw, kind)
    {
      FetchResourceProperties(State(), web, baseUrl, dir, raw, kind);
      var url := raw;
      if !(StartsWith(raw, "http") || StartsWith(raw, "//")) {
        url := web.join(baseUrl, raw);
      }
      if url in downloadedFiles {
        return;
      }
      MarkVisited(url);
      var resp := web.fetch(url);
      if resp.Some? && resp.value.status == 200 {
        CountFile(ResourcePath(web, dir, url, kind), resp.value.length);
      }
    }

    /** One loop of `download_resources`. */
    method DownloadEach(web: Web, baseUrl: string, dir: Dir, raws: seq<string>, kind: Kind)
      requires Valid()
      modifies this
      ensures Valid()
      ensures State() == FetchAll(old(State()), web, baseUrl, dir, raws, kind)
    {
      var i := 0;
      while i < |raws|
        invariant 0 <= i <= |raws|
        invariant Valid()
        invariant State() == FetchAll(old(State()), web, baseUrl, dir, raws[..i], kind)
      {
        assert raws[..i + 1][..i] == raws[..i];
        if raws[i] != "" {
          DownloadResource(web, baseUrl, dir, raws[i], kind);
        }
        i := i + 1;
      }
      assert raws[..i] == raws;
    }

    /** `download_resources`. */
    method DownloadResources(web: Web, baseUrl: string, dir: Dir, page: Rendered)
      requires Valid()
      modifies this
      ensures Valid()
      ensures State() == PageResources(old(State()), web, baseUrl, dir, page)
    {
      DownloadEach(web, baseUrl, dir, page.stylesheets, Css);
      DownloadEach(web, baseUrl, dir, page.scripts, Js);
      DownloadEach(web, baseUrl, dir, page.images, Images);
    }

    /** `download_page`. */
    method DownloadPage(web: Web, baseUrl: string, dir: Dir, url: string) returns (path: Option<FilePath>)
      requires Valid()
      modifies this
      ensures Valid()
      ensures (State(), path) == FetchPage(old(State()), web, baseUrl, dir, url)
    {
      if url in downloadedFiles {
        return None;
      }
      assert |downloadedFiles + {url}| == |downloadedFiles| + 1;
      MarkVisited(url);
      var page := web.render(url);
      if page.None? {
        return None;
      }
      var p := PagePath(web, dir, url);
      CountFile(p, page.value.fileSize);
      DownloadResources(web, baseUrl, dir, page.value);
      path := Some(p);
    }

    /** The loop of `download_website` over the links it follows. */
    method VisitAll(web: Web, baseUrl: string, dir: Dir, links: seq<string>, maxSize: int)
      requires Valid()
      modifies this
      ensures Valid()
      ensures State() == VisitLinks(old(State()), web, baseUrl, dir, links, maxSize)
    {
      var i := 0;
      while i < |links|
        invariant 0 <= i <= |links|
        invariant Valid()
        invariant State() == VisitLinks(old(State()), web, baseUrl, dir, links[..i], maxSize)
      {
        assert links[..i + 1][..i] == links[..i];
        if totalSize < maxSize {
          var _ := DownloadPage(web, baseUrl, dir, links[i]);
        }
        i := i + 1;
      }
      assert links[..i] == links;
    }

    /** `download_website`: returns the site directory and the running totals,
        which count everything this downloader has fetched so far, not only
        this site. */
    method DownloadWebsite(web: Web, url: string, outputDir: string, maxSize: int)
      returns (dir: Dir, files: nat, size: nat)
      requires Valid()
      modifies this
      ensures Valid()
      ensures State() == Website(old(State()), web, url, outputDir, maxSize)
      ensures dir == SiteDir(web, url, outputDir)
      ensures files == totalFiles && size == totalSize
    {
      var baseUrl := BaseUrl(web, url);
      dir := SiteDir(web, url, outputDir);
      var main := DownloadPage(web, baseUrl, dir, url);
      if main.Some? {
        VisitAll(web, baseUrl, dir, Take(ExtractLinks(web, url), MaxLinkedPages), maxSize);
      }
      files, size := totalFiles, totalSize;
    }
  }
}
