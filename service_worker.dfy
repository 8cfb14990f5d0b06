/** The pure parts of service-worker.js: its own copy of the base-path rule,
    the list of URLs it precaches, and which caches it deletes on activation.
    The worker's location is a parameter, as in Config. */
module ServiceWorker {
  import opened Text
  import Config

  /** The name of the one cache the current version keeps. */
  const CacheName: string := "dino-game-v1"

  /** The worker's getBasePath, written out as in the worker; it computes the
      same function as ENV_CONFIG.getBasePath. */
  function GetBasePath(hostname: string, pathname: string): (r: string)
    ensures r == Config.GetBasePath(hostname, pathname)
  {
    var isVSCode := Includes(hostname, "vscode.dev") || Includes(hostname, "vscode.com");
    if isVSCode then
      var pathParts := NonEmpty(Split(pathname, '/'));
      if "github" in pathParts then
        var githubIndex := IndexOf(pathParts, "github");
        "/" + Join(Take(pathParts, githubIndex + 3), '/')
      else
        "/t-mobile"
    else
      "/t-mobile"
  }

  /** The asset names behind the eight precached URLs, in order. */
  const CachedAssets: seq<string> := ["", "index.html", "style.css", "game.js", "config.js",
                                       "manifest.json", "icon-192.png", "icon-512.png"]

  /** urlsToCache for a given BASE_PATH. */
  function UrlsToCache(basePath: string): (r: seq<string>)
    ensures |r| == |CachedAssets| == 8
    ensures r[0] == basePath + "/"
    ensures forall i :: 0 <= i < |r| ==> r[i] == basePath + "/" + CachedAssets[i]
  {
    var r := [
      basePath + "/",
      basePath + "/" + "index.html",
      basePath + "/" + "style.css",
      basePath + "/" + "game.js",
      basePath + "/" + "config.js",
      basePath + "/" + "manifest.json",
      basePath + "/" + "icon-192.png",
      basePath + "/" + "icon-512.png"
    ];
    assert basePath + "/" == basePath + "/" + "";
    r
  }

  lemma CachedAssetsDistinct()
    ensures forall i, j :: 0 <= i < j < |CachedAssets| ==> CachedAssets[i] != CachedAssets[j]
  {
  }

  /** No URL is precached twice. */
  lemma PrecachedUrlsDistinct(basePath: string)
    ensures var urls := UrlsToCache(basePath);
      forall i, j :: 0 <= i < j < |urls| ==> urls[i] != urls[j]
  {
    var urls := UrlsToCache(basePath);
    CachedAssetsDistinct();
    forall i, j | 0 <= i < j < |urls|
      ensures urls[i] != urls[j]
    {
      SuffixesDiffer(basePath + "/", CachedAssets[i], CachedAssets[j]);
    }
  }

  /** Two different suffixes after a common prefix give different strings. */
  lemma SuffixesDiffer(prefix: string, a: string, b: string)
    requires a != b
    ensures prefix + a != prefix + b
  {
    assert (prefix + a)[|prefix|..] == a;
    assert (prefix + b)[|prefix|..] == b;
  }

  /** Every precached URL is the asset path that ENV_CONFIG.getAssetPath gives
      the page for the same asset. */
  lemma CachedUrlsAreAssetPaths(hostname: string, pathname: string)
    ensures forall i :: 0 <= i < |CachedAssets| ==>
      UrlsToCache(GetBasePath(hostname, pathname))[i] == Config.GetAssetPath(hostname, pathname, CachedAssets[i])
  {
    forall i | 0 <= i < |CachedAssets|
      ensures UrlsToCache(GetBasePath(hostname, pathname))[i] == Config.GetAssetPath(hostname, pathname, CachedAssets[i])
    {
      assert CachedAssets[i] == "" || CachedAssets[i][0] != '/';
    }
  }

  /** The activate handler: the caches it deletes, in the order it finds them. */
  function CachesToDelete(cacheNames: seq<string>): (r: seq<string>)
    ensures |r| <= |cacheNames|
    ensures forall name :: name in r <==> name in cacheNames && name != CacheName
    ensures CacheName !in r
    decreases |cacheNames|
  {
    if |cacheNames| == 0 then []
    else
      (if cacheNames[0] != CacheName then [cacheNames[0]] else []) + CachesToDelete(cacheNames[1..])
  }
}
