/** ENV_CONFIG of config.js: the root path under which the game's assets are
    served. The page's host name and path name, which config.js reads from
    `window.location`, are parameters. */
module Config {
  import opened Text

  /** Used on every host other than vscode.dev / vscode.com, and on those
      hosts when the path has no `github` segment. */
  const DefaultBasePath: string := "/t-mobile"
  const GithubSegment: string := "github"

  /** ENV_CONFIG.isVSCodeDev: "vscode.dev" occurs somewhere in the host name. */
  predicate IsVSCodeDev(hostname: string)
    ensures IsVSCodeDev(hostname) <==> exists i :: OccursAt(hostname, "vscode.dev", i)
  {
    Includes(hostname, "vscode.dev")
  }

  /** ENV_CONFIG.isVSCodeCom: "vscode.com" occurs somewhere in the host name. */
  predicate IsVSCodeCom(hostname: string)
    ensures IsVSCodeCom(hostname) <==> exists i :: OccursAt(hostname, "vscode.com", i)
  {
    Includes(hostname, "vscode.com")
  }

  /** The isVSCode test of getBasePath: either name occurs in the host name. */
  predicate IsVSCode(hostname: string)
    ensures IsVSCode(hostname) <==>
              exists i :: OccursAt(hostname, "vscode.dev", i) || OccursAt(hostname, "vscode.com", i)
  {
    IsVSCodeDev(hostname) || IsVSCodeCom(hostname)
  }

  /** `pathname.split('/').filter(p => p)`: the non-empty segments of the path. */
  function PathParts(pathname: string): (r: seq<string>)
    ensures forall i :: 0 <= i < |r| ==> r[i] != "" && '/' !in r[i]
  {
    var pieces := Split(pathname, '/');
    var r := NonEmpty(pieces);
    assert forall i :: 0 <= i < |r| ==> r[i] in pieces;
    r
  }

  /** Segment i is the first `github` segment. */
  predicate FirstGithubAt(parts: seq<string>, i: int)
  {
    0 <= i < |parts| && parts[i] == GithubSegment && GithubSegment !in parts[..i]
  }

  /** The choice getBasePath makes once it knows the host kind and the path
      segments. */
  function BaseOfSegments(isVSCode: bool, pathParts: seq<string>): (r: string)
    ensures |r| > 0 && r[0] == '/'
    ensures !isVSCode || GithubSegment !in pathParts ==> r == DefaultBasePath
  {
    if isVSCode then
      if GithubSegment in pathParts then
        var githubIndex := IndexOf(pathParts, GithubSegment);
        "/" + Join(Take(pathParts, githubIndex + 3), '/')
      else
        DefaultBasePath
    else
      DefaultBasePath
  }

  /** ENV_CONFIG.getBasePath. */
  function GetBasePath(hostname: string, pathname: string): (r: string)
    ensures |r| > 0 && r[0] == '/'
    ensures !IsVSCode(hostname) ==> r == DefaultBasePath
    ensures GithubSegment !in PathParts(pathname) ==> r == DefaultBasePath
  {
    BaseOfSegments(IsVSCodeDev(hostname) || IsVSCodeCom(hostname), PathParts(pathname))
  }

  /** On vscode.dev / vscode.com, with a `github` segment, the base path is
      `/` and the segments up to two past the first `github`, joined by `/`. */
  lemma GetBasePathOfRepository(hostname: string, pathname: string, i: int)
    requires IsVSCode(hostname) && FirstGithubAt(PathParts(pathname), i)
    ensures GetBasePath(hostname, pathname) == "/" + Join(Take(PathParts(pathname), i + 3), '/')
  {
    var parts := PathParts(pathname);
    assert IndexOf(parts, GithubSegment) == i;
  }

  /** `assetPath` without its first character when that is a `/`. */
  function StripLeadingSlash(assetPath: string): (r: string)
    ensures "/" <= assetPath ==> "/" + r == assetPath
    ensures !("/" <= assetPath) ==> r == assetPath
  {
    if "/" <= assetPath then assetPath[1..] else assetPath
  }

  /** ENV_CONFIG.getAssetPath: the base path, one `/`, and the asset path;
      a leading `/` of the asset path serves as that separator. */
  function GetAssetPath(hostname: string, pathname: string, assetPath: string): (r: string)
    ensures "/" <= assetPath ==> r == GetBasePath(hostname, pathname) + assetPath
    ensures !("/" <= assetPath) ==> r == GetBasePath(hostname, pathname) + "/" + assetPath
  {
    var basePath := GetBasePath(hostname, pathname);
    var cleanAssetPath := StripLeadingSlash(assetPath);
    assert "/" <= assetPath ==> "/" + cleanAssetPath == assetPath;
    basePath + "/" + cleanAssetPath
  }

  /** A `/` between two parts of a path separates their segments. */
  lemma PathPartsAround(a: string, b: string)
    ensures PathParts(a + "/" + b) == PathParts(a) + PathParts(b)
  {
    SplitAround(a, b, '/');
    NonEmptyAppend(Split(a, '/'), Split(b, '/'));
  }

  lemma PathPartsOfEmpty()
    ensures PathParts("") == []
  {
  }

  /** The base path depends on the pathname only through its segments. */
  lemma SameSegmentsSameBase(hostname: string, p: string, q: string)
    requires PathParts(p) == PathParts(q)
    ensures GetBasePath(hostname, p) == GetBasePath(hostname, q)
  {
  }

  lemma TrailingSlashParts(p: string)
    ensures PathParts(p + "/") == PathParts(p)
  {
    PathPartsAround(p, "");
    PathPartsOfEmpty();
    assert p + "/" + "" == p + "/";
  }

  lemma LeadingSlashParts(p: string)
    ensures PathParts("/" + p) == PathParts(p)
  {
    PathPartsAround("", p);
    PathPartsOfEmpty();
    assert "" + "/" + p == "/" + p;
  }

  /** Slashes at either end of the path change nothing. */
  lemma OuterSlashesIgnored(hostname: string, p: string)
    ensures PathParts(p + "/") == PathParts(p) && PathParts("/" + p) == PathParts(p)
    ensures GetBasePath(hostname, p + "/") == GetBasePath(hostname, p)
    ensures GetBasePath(hostname, "/" + p) == GetBasePath(hostname, p)
  {
    TrailingSlashParts(p);
    LeadingSlashParts(p);
    SameSegmentsSameBase(hostname, p + "/", p);
    SameSegmentsSameBase(hostname, "/" + p, p);
  }

  /** A doubled slash reads as a single one. */
  lemma DoubledSlashIgnored(hostname: string, a: string, b: string)
    ensures PathParts(a + "//" + b) == PathParts(a + "/" + b)
    ensures GetBasePath(hostname, a + "//" + b) == GetBasePath(hostname, a + "/" + b)
  {
    assert a + "//" + b == (a + "/") + "/" + b;
    PathPartsAround(a + "/", b);
    TrailingSlashParts(a);
    PathPartsAround(a, b);
    SameSegmentsSameBase(hostname, a + "//" + b, a + "/" + b);
  }

  /** A single segment reads back as itself. */
  lemma PathPartsOfSegment(segment: string)
    requires segment != "" && '/' !in segment
    ensures PathParts(segment) == [segment]
  {
    SplitOfPiece(segment, '/');
    assert NonEmpty([segment]) == [segment] + NonEmpty([]);
  }

  /** Joining non-empty, slash-free segments with `/` and splitting the result
      again gives the segments back. */
  lemma {:induction false} PathPartsOfJoin(parts: seq<string>)
    requires forall i :: 0 <= i < |parts| ==> parts[i] != "" && '/' !in parts[i]
    ensures PathParts(Join(parts, '/')) == parts
    decreases |parts|
  {
    if |parts| == 0 {
      PathPartsOfEmpty();
    } else if |parts| == 1 {
      PathPartsOfSegment(parts[0]);
    } else {
      var rest := Join(parts[1..], '/');
      assert Join(parts, '/') == parts[0] + "/" + rest;
      PathPartsOfJoin(parts[1..]);
      PathPartsAround(parts[0], rest);
      PathPartsOfSegment(parts[0]);
      assert [parts[0]] + parts[1..] == parts;
    }
  }

  /** The same with the leading `/` that getBasePath puts in front. */
  lemma PathPartsOfRooted(parts: seq<string>)
    requires forall i :: 0 <= i < |parts| ==> parts[i] != "" && '/' !in parts[i]
    ensures PathParts("/" + Join(parts, '/')) == parts
  {
    PathPartsOfJoin(parts);
    LeadingSlashParts(Join(parts, '/'));
  }

  /** The default base path is the one segment `t-mobile`. */
  lemma DefaultBasePathParts()
    ensures PathParts(DefaultBasePath) == ["t-mobile"]
  {
    var parts := ["t-mobile"];
    assert Join(parts, '/') == "t-mobile";
    assert DefaultBasePath == "/" + Join(parts, '/');
    PathPartsOfRooted(parts);
  }

  /** Read back as a path, the base path consists of the segments up to and
      including the two after the first `github` (fewer when the path ends
      sooner), or of `t-mobile` alone. */
  lemma BasePathSegments(hostname: string, pathname: string)
    ensures var parts := PathParts(pathname);
      PathParts(GetBasePath(hostname, pathname)) ==
        if IsVSCode(hostname) && GithubSegment in parts
        then Take(parts, IndexOf(parts, GithubSegment) + 3)
        else ["t-mobile"]
  {
    var parts := PathParts(pathname);
    if IsVSCode(hostname) && GithubSegment in parts {
      var i := IndexOf(parts, GithubSegment);
      var k := Take(parts, i + 3);
      GetBasePathOfRepository(hostname, pathname, i);
      assert forall j :: 0 <= j < |k| ==> k[j] == parts[j];
      PathPartsOfRooted(k);
    } else {
      DefaultBasePathParts();
    }
  }

  /** Resolving the base path of a page that is itself at the base path gives
      that base path again. */
  lemma BasePathIdempotent(hostname: string, pathname: string)
    ensures GetBasePath(hostname, GetBasePath(hostname, pathname)) == GetBasePath(hostname, pathname)
  {
    if IsVSCode(hostname) && GithubSegment in PathParts(pathname) {
      RepositoryBaseIdempotent(hostname, pathname);
    } else {
      assert GetBasePath(hostname, pathname) == DefaultBasePath;
      DefaultBasePathParts();
    }
  }

  lemma RepositoryBaseIdempotent(hostname: string, pathname: string)
    requires IsVSCode(hostname) && GithubSegment in PathParts(pathname)
    ensures GetBasePath(hostname, GetBasePath(hostname, pathname)) == GetBasePath(hostname, pathname)
  {
    var parts := PathParts(pathname);
    var i := IndexOf(parts, GithubSegment);
    var k := Take(parts, i + 3);
    var base := "/" + Join(k, '/');
    GetBasePathOfRepository(hostname, pathname, i);
    assert forall j :: 0 <= j < |k| ==> k[j] == parts[j];
    PathPartsOfRooted(k);
    assert FirstGithubAt(PathParts(base), i) by {
      assert k[..i] == parts[..i];
    }
    GetBasePathOfRepository(hostname, base, i);
    assert Take(k, i + 3) == k;
  }

  /** An asset path with one leading `/` resolves like the same path without it. */
  lemma AssetPathLeadingSlash(hostname: string, pathname: string, assetPath: string)
    requires !("/" <= assetPath)
    ensures GetAssetPath(hostname, pathname, "/" + assetPath) == GetAssetPath(hostname, pathname, assetPath)
  {
  }

  /** Only one leading `/` is removed: a second one stays in the result. */
  lemma AssetPathDoubleSlash(hostname: string, pathname: string, assetPath: string)
    ensures GetAssetPath(hostname, pathname, "//" + assetPath) == GetBasePath(hostname, pathname) + "//" + assetPath
  {
    assert "/" <= "//" + assetPath;
  }
}
