/**
 * The request handler of the local static file server: the query is cut off, the rest is
 * percent-decoded, '/' becomes '/index.html', the path is joined onto the working directory,
 * and the answer is 403, 404, 500 or the file with a Content-Type chosen by its extension.
 */
module Server {
  import opened Base
  import Text
  import Uri
  import opened Paths

  /** `process.env.PORT || 3000`: an unset or empty variable selects port 3000. */
  function ListenPort(env: Option<string>): (r: string)
    ensures env.Some? && env.value != "" ==> r == env.value
    ensures env.None? || env.value == "" ==> r == "3000"
  {
    OrDefault(env, "3000")
  }

  const OctetStream := "application/octet-stream"

  /** The table of known extensions. */
  const Mime: map<string, string> := map[
    ".html" := "text/html",
    ".css" := "text/css",
    ".js" := "application/javascript",
    ".json" := "application/json",
    ".png" := "image/png",
    ".jpg" := "image/jpeg",
    ".jpeg" := "image/jpeg",
    ".svg" := "image/svg+xml",
    ".ico" := "image/x-icon",
    ".wav" := "audio/wav",
    ".mp3" := "audio/mpeg"
  ]

  /** The Content-Type of a served file: looked up by its lower-cased extension. */
  function MimeFor(filePath: string): (r: string)
    ensures r == OctetStream || r in Mime.Values
    ensures Extname(filePath) == "" ==> r == OctetStream
  {
    var ext := Lower(Extname(filePath));
    if ext in Mime then Mime[ext] else OctetStream
  }

  /** A file `dir/stem.ext` (not a dotfile) is served with the type of its last extension
      `.ext`, whatever its letter case. */
  lemma MimeOfFile(dir: string, stem: string, ext: string)
    requires stem != [] && '/' !in stem
    requires '.' !in ext && '/' !in ext
    requires stem + "." + ext != ".."
    ensures var key := Lower("." + ext);
      MimeFor(dir + "/" + stem + "." + ext) == if key in Mime then Mime[key] else OctetStream
  {
    ExtnameOfFile(dir, stem, ext);
  }

  /** A file name without a dot has no extension and is served as an octet stream. */
  lemma MimeOfExtensionless(dir: string, name: string)
    requires name != [] && '.' !in name && '/' !in name
    ensures MimeFor(dir + "/" + name) == OctetStream
  {
    BaseNameOfJoin(dir, name);
    assert Extname(dir + "/" + name) == "";
    assert Lower("") == "";
  }

  /** A dotfile such as `.env` has no extension and is served as an octet stream. */
  lemma MimeOfDotFile(dir: string, rest: string)
    requires '.' !in rest && '/' !in rest
    ensures MimeFor(dir + "/" + "." + rest) == OctetStream
  {
    ExtnameOfDotFile(dir, rest);
    assert Lower("") == "";
  }

  /** `url.split('?')[0]`: the part of the request target before the first '?'. */
  function QueryFree(url: string): (r: string)
    ensures '?' !in r && StartsWith(url, r)
    ensures |r| < |url| ==> url[|r|] == '?'
  {
    match Text.IndexOf(url, '?')
    case None => url
    case Some(i) => url[..i]
  }

  /** The site root is served as its index page. */
  function Route(reqPath: string): (r: string)
    ensures r == "/index.html" <==> reqPath == "/" || reqPath == "/index.html"
    ensures r != reqPath ==> reqPath == "/"
  {
    if reqPath == "/" then "/index.html" else reqPath
  }

  /** The file a request names, or None when its path is not valid percent-encoding
      (decodeURIComponent throws). */
  function Resolved(rootSegs: seq<string>, url: string): (r: Option<string>)
    requires AllNames(rootSegs)
    ensures r.None? <==> Uri.Decode(QueryFree(url)).None?
    ensures r.Some? ==> IsAbsolute(r.value)
  {
    match Uri.Decode(QueryFree(url))
    case None => None
    case Some(reqPath) => Some(Join(PathOf(rootSegs), Route(reqPath)))
  }

  datatype Body = Text(text: string) | File(path: string)

  datatype Response = Response(status: nat, contentType: Option<string>, body: Body)

  const PlainText := "text/plain; charset=utf-8"
  const ServerError := Response(500, Some(PlainText), Text("Server error"))
  const Forbidden := Response(403, None, Text("Forbidden"))
  const NotFound := Response(404, Some(PlainText), Text("Not found"))

  /** The answer for a resolved file path. A path holding a NUL character is refused by the
      file-system call before any lookup, which throws into the 500 handler. */
  function Respond(filePath: string, permitted: bool, isFile: string -> bool): (r: Response)
    ensures r.status in {200, 403, 404, 500}
    ensures r.status == 403 <==> !permitted
    ensures r.status == 200 <==> permitted && '\0' !in filePath && isFile(filePath)
    ensures r.status == 200 ==> r == Response(200, Some(MimeFor(filePath)), File(filePath))
  {
    if !permitted then Forbidden
    else if '\0' in filePath then ServerError
    else if !isFile(filePath) then NotFound
    else Response(200, Some(MimeFor(filePath)), File(filePath))
  }

  /** The handler as written: the resolved path must start with the root's text. `isFile`
      says whether a path names an existing regular file. */
  function Handle(rootSegs: seq<string>, url: string, isFile: string -> bool): (r: Response)
    requires AllNames(rootSegs)
    ensures Resolved(rootSegs, url).None? ==> r == ServerError
    ensures r.status == 200 ==>
              && r.body.File?
              && Resolved(rootSegs, url) == Some(r.body.path)
              && StartsWith(r.body.path, PathOf(rootSegs))
              && isFile(r.body.path)
              && r.contentType == Some(MimeFor(r.body.path))
    ensures r.status == 403 <==>
              && Resolved(rootSegs, url).Some?
              && !StartsWith(Resolved(rootSegs, url).value, PathOf(rootSegs))
  {
    match Resolved(rootSegs, url)
    case None => ServerError
    case Some(filePath) => Respond(filePath, StartsWith(filePath, PathOf(rootSegs)), isFile)
  }

  /** A refused request never depends on the file system. */
  lemma ForbiddenWithoutLookup(rootSegs: seq<string>, url: string, isFile: string -> bool, other: string -> bool)
    requires AllNames(rootSegs)
    requires Handle(rootSegs, url, isFile).status == 403
    ensures Handle(rootSegs, url, other) == Forbidden
  {
  }

  /** Only the part before the first '?' matters. */
  lemma HandleIgnoresQuery(rootSegs: seq<string>, path: string, query: string, isFile: string -> bool)
    requires AllNames(rootSegs) && '?' !in path
    ensures Handle(rootSegs, path + "?" + query, isFile) == Handle(rootSegs, path, isFile)
  {
    Text.IndexOfJoin(path, '?', query);
    assert path + ['?'] + query == path + "?" + query;
    assert (path + "?" + query)[..|path|] == path;
  }

  /** A target without '?' or '%' is taken literally. */
  lemma ResolvedPlain(rootSegs: seq<string>, url: string)
    requires AllNames(rootSegs) && '?' !in url && '%' !in url
    ensures Resolved(rootSegs, url) == Some(Join(PathOf(rootSegs), Route(url)))
  {
    Uri.DecodePlain(url);
  }

  lemma IndexTargetPlain(rootSegs: seq<string>)
    requires AllNames(rootSegs)
    ensures Resolved(rootSegs, "/index.html") == Some(Join(PathOf(rootSegs), "/index.html"))
  {
    var index := "/index.html";
    assert index == ['/', 'i', 'n', 'd', 'e', 'x', '.', 'h', 't', 'm', 'l'];
    assert '?' !in index && '%' !in index;
    ResolvedPlain(rootSegs, index);
  }

  lemma RootTargetPlain(rootSegs: seq<string>)
    requires AllNames(rootSegs)
    ensures Resolved(rootSegs, "/") == Some(Join(PathOf(rootSegs), "/index.html"))
  {
    assert '?' !in "/" && '%' !in "/";
    ResolvedPlain(rootSegs, "/");
  }

  /** A request for '/' is answered as one for '/index.html'. */
  lemma RootServesIndex(rootSegs: seq<string>, isFile: string -> bool)
    requires AllNames(rootSegs)
    ensures Handle(rootSegs, "/", isFile) == Handle(rootSegs, "/index.html", isFile)
  {
    IndexTargetPlain(rootSegs);
    RootTargetPlain(rootSegs);
  }

  /** Malformed percent-encoding is answered with 500 whatever the file system holds. */
  lemma BadEncodingIsServerError(rootSegs: seq<string>, url: string, isFile: string -> bool)
    requires AllNames(rootSegs) && Uri.Decode(QueryFree(url)).None?
    ensures Handle(rootSegs, url, isFile) == ServerError
  {
  }

  /** Inside the root, an existing file is served and anything else is 404 (or 500 for a NUL). */
  lemma InsideRootServed(rootSegs: seq<string>, url: string, isFile: string -> bool)
    requires AllNames(rootSegs)
    requires Resolved(rootSegs, url).Some?
    requires StartsWith(Resolved(rootSegs, url).value, PathOf(rootSegs))
    ensures var filePath := Resolved(rootSegs, url).value;
      var r := Handle(rootSegs, url, isFile);
      && ('\0' in filePath ==> r == ServerError)
      && ('\0' !in filePath && !isFile(filePath) ==> r == NotFound)
      && ('\0' !in filePath && isFile(filePath) ==> r == Response(200, Some(MimeFor(filePath)), File(filePath)))
  {
  }

  lemma SplitParentTarget(y: string)
    requires '/' !in y
    ensures Split("/../" + y) == ["", "..", y]
  {
    assert "/../" + y == "" + "/" + (".." + "/" + y);
    SplitCons("", ".." + "/" + y);
    SplitCons("..", y);
    SplitPlain(y);
  }

  lemma ResolveParentTarget(parent: seq<string>, x: string, y: string)
    requires AllNames(parent) && IsName(x) && IsName(y)
    ensures Resolve(parent + [x], ["", "..", y]) == parent + [y]
  {
    assert (parent + [x])[..|parent|] == parent;
    assert Resolve(parent + [x], ["", "..", y]) == Resolve(parent + [x], ["..", y]);
    assert ["", "..", y][1..] == ["..", y];
    assert ["..", y][1..] == [y];
    assert Resolve(parent + [x], ["..", y]) == Resolve(parent, [y]);
    assert [y][1..] == [];
    assert Resolve(parent, [y]) == Resolve(parent + [y], []);
  }

  lemma {:induction false} JoinSegmentsNonEmpty(segs: seq<string>)
    requires segs != [] && segs[0] != ""
    ensures JoinSegments(segs) != ""
  {
  }

  /** The path of a sibling named `y` of the directory `parent/x`, reached through '..'. */
  lemma SiblingPath(parent: seq<string>, x: string, y: string)
    requires AllNames(parent) && IsName(x) && IsName(y)
    ensures Join(PathOf(parent + [x]), "/../" + y) == PathOf(parent + [y])
  {
    var root := PathOf(parent + [x]);
    var url := "/../" + y;
    var q := root + "/" + url;
    SplitParentTarget(y);
    SplitAppend(root, url);
    ResolvePathOf(parent + [x]);
    ResolveAppend([], Split(root), Split(url));
    ResolveParentTarget(parent, x, y);
    assert q[|q| - 1] == y[|y| - 1];
    NormalizeOnto(q, parent + [y]);
  }

  lemma SiblingName(x: string, suffix: string)
    requires IsName(x) && suffix != [] && '/' !in suffix && suffix[0] != '.'
    ensures IsName(x + suffix)
  {
    var y := x + suffix;
    assert '/' !in y by {
      assert forall i :: 0 <= i < |y| ==> y[i] == if i < |x| then x[i] else suffix[i - |x|];
    }
    assert y != ".." by {
      if |y| == 2 { assert y[1] == suffix[0]; }
    }
  }

  lemma ParentTargetPlain(y: string)
    requires '?' !in y && '%' !in y
    ensures '?' !in "/../" + y && '%' !in "/../" + y && "/../" + y != "/"
  {
    var url := "/../" + y;
    assert forall i :: 0 <= i < |url| ==> url[i] == if i < 4 then "/../"[i] else y[i - 4];
  }

  lemma SiblingPathExtends(parent: seq<string>, x: string, suffix: string)
    requires AllNames(parent) && IsName(x) && IsName(x + suffix)
    ensures PathOf(parent + [x + suffix]) == PathOf(parent + [x]) + suffix
  {
    var y := x + suffix;
    if parent != [] {
      var j := JoinSegments(parent);
      JoinSegmentsAppend(parent, [x]);
      assert JoinSegments([x]) == x;
      JoinSegmentsAppend(parent, [y]);
      assert JoinSegments([y]) == y;
      assert PathOf(parent + [y]) == "/" + (j + "/" + (x + suffix));
      assert PathOf(parent + [x]) == "/" + (j + "/" + x);
    } else {
      assert parent + [x] == [x];
      assert parent + [y] == [y];
    }
  }

  lemma SiblingResolved(parent: seq<string>, x: string, suffix: string)
    requires AllNames(parent) && IsName(x)
    requires suffix != [] && '/' !in suffix && suffix[0] != '.'
    requires '?' !in x + suffix && '%' !in x + suffix
    ensures IsName(x + suffix)
    ensures Resolved(parent + [x], "/../" + x + suffix) == Some(PathOf(parent + [x]) + suffix)
  {
    var y := x + suffix;
    SiblingName(x, suffix);
    var url := "/../" + y;
    assert "/../" + x + suffix == url;
    ParentTargetPlain(y);
    ResolvedPlain(parent + [x], url);
    SiblingPath(parent, x, y);
    SiblingPathExtends(parent, x, suffix);
  }

  /** A longer name sharing the root's text is outside the root. */
  lemma ExtendedNameOutside(root: string, suffix: string)
    requires |root| >= 2 && suffix != [] && suffix[0] != '/'
    ensures StartsWith(root + suffix, root) && !Within(root, root + suffix)
  {
    var p := root + suffix;
    assert p[..|root|] == root;
    assert p[|root|] == suffix[0];
    assert (root + "/")[|root|] == '/';
  }

  /** The written check lets a sibling directory through whose name extends the root's:
      with the root '/srv/a', the request '/../ab' is served from '/srv/ab'. */
  lemma SiblingPrefixServed(parent: seq<string>, x: string, suffix: string, isFile: string -> bool)
    requires AllNames(parent) && IsName(x)
    requires suffix != [] && '/' !in suffix && suffix[0] != '.'
    requires '?' !in x + suffix && '%' !in x + suffix
    requires '\0' !in PathOf(parent + [x]) + suffix && isFile(PathOf(parent + [x]) + suffix)
    ensures var sibling := PathOf(parent + [x]) + suffix;
      && Handle(parent + [x], "/../" + x + suffix, isFile) == Response(200, Some(MimeFor(sibling)), File(sibling))
      && !Within(PathOf(parent + [x]), sibling)
  {
    SiblingResolved(parent, x, suffix);
    ExtendedNameOutsideRoot(parent, x, suffix);
  }

  lemma ExtendedNameOutsideRoot(parent: seq<string>, x: string, suffix: string)
    requires AllNames(parent) && IsName(x) && suffix != [] && suffix[0] != '/'
    ensures var root := PathOf(parent + [x]);
      StartsWith(root + suffix, root) && !Within(root, root + suffix)
  {
    JoinSegmentsNonEmpty(parent + [x]);
    ExtendedNameOutside(PathOf(parent + [x]), suffix);
  }

  /** The handler with the intended containment check: the root itself or a path below it. */
  function HandleContained(rootSegs: seq<string>, url: string, isFile: string -> bool): (r: Response)
    requires AllNames(rootSegs)
    ensures Resolved(rootSegs, url).None? ==> r == ServerError
    ensures r.status == 200 ==>
              && r.body.File?
              && Resolved(rootSegs, url) == Some(r.body.path)
              && Within(PathOf(rootSegs), r.body.path)
              && isFile(r.body.path)
              && r.contentType == Some(MimeFor(r.body.path))
    ensures r.status == 403 <==>
              && Resolved(rootSegs, url).Some?
              && !Within(PathOf(rootSegs), Resolved(rootSegs, url).value)
  {
    match Resolved(rootSegs, url)
    case None => ServerError
    case Some(filePath) => Respond(filePath, Within(PathOf(rootSegs), filePath), isFile)
  }

  lemma WithinStartsWith(root: string, p: string)
    requires IsAbsolute(root) && Within(root, p)
    ensures StartsWith(p, root)
  {
    if p != root && root != "/" {
      assert p[..|root|] == (root + "/")[..|root|];
    }
  }

  /** The intended check is stricter than the written one and otherwise answers alike. */
  lemma ContainedRefinesHandle(rootSegs: seq<string>, url: string, isFile: string -> bool)
    requires AllNames(rootSegs)
    requires HandleContained(rootSegs, url, isFile).status != 403
    ensures HandleContained(rootSegs, url, isFile) == Handle(rootSegs, url, isFile)
  {
    if Resolved(rootSegs, url).Some? {
      WithinStartsWith(PathOf(rootSegs), Resolved(rootSegs, url).value);
    }
  }

  /** A decoded path without '..' segments is never refused, by either check. */
  lemma NoParentNeverForbidden(rootSegs: seq<string>, url: string, isFile: string -> bool)
    requires AllNames(rootSegs)
    requires Uri.Decode(QueryFree(url)).Some?
    requires var segs := Split(Route(Uri.Decode(QueryFree(url)).value));
      forall i :: 0 <= i < |segs| ==> segs[i] != ".."
    ensures HandleContained(rootSegs, url, isFile).status != 403
    ensures Handle(rootSegs, url, isFile) == HandleContained(rootSegs, url, isFile)
  {
    JoinStaysWithin(rootSegs, Route(Uri.Decode(QueryFree(url)).value));
    ContainedRefinesHandle(rootSegs, url, isFile);
  }

  /** The sibling directory of the written check is refused by the intended one. */
  lemma SiblingPrefixRefused(parent: seq<string>, x: string, suffix: string, isFile: string -> bool)
    requires AllNames(parent) && IsName(x)
    requires suffix != [] && '/' !in suffix && suffix[0] != '.'
    requires '?' !in x + suffix && '%' !in x + suffix
    ensures HandleContained(parent + [x], "/../" + x + suffix, isFile) == Forbidden
  {
    SiblingResolved(parent, x, suffix);
    ExtendedNameOutsideRoot(parent, x, suffix);
  }
}
