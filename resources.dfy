/** Listing the immediate children of a resource folder (`psp.std.Resources`).
    A folder is found through a class loader and is backed either by a directory
    (`file:` URL) or by a path prefix inside a JAR archive (`jar:` URL). */
module Resources {
  import opened Wrappers
  import opened JavaStrings

  /** A resolved `java.net.URL`: its protocol and its path. */
  datatype Url = Url(protocol: string, path: string)

  /** What the Java runtime answers to the calls the listing makes:
      - `resources`: `ClassLoader.getResource(name)`, null when `name` is absent;
      - `directories`: `new File(url.toURI()).list()` keyed by the URL's path, null when absent;
      - `archives`: the entry names `new JarFile(file).entries()` yields, in order,
        keyed by file name; opening an absent file throws `IOException`;
      - `decode`: `URLDecoder.decode(s, "UTF-8")`. */
  datatype Env = Env(
    resources: map<string, Url>,
    directories: map<string, seq<string>>,
    archives: map<string, seq<string>>,
    decode: string -> string)

  /** The exceptions a listing can end with. */
  datatype Failure =
    | Unsupported(url: Option<Url>)   // UnsupportedOperationException("Cannot list files for URL " + url)
    | IOFailure(file: string)         // IOException opening the archive
    | IndexOutOfBounds                // StringIndexOutOfBoundsException from substring
    | NullPointer                     // NullPointerException dereferencing a null URL

  /** The returned `String[]`: a set of names, or the null that `File.list()` gives
      for something that is not a readable directory. */
  datatype Names = Names(names: set<string>) | NullArray

  function GetResource(env: Env, name: string): (r: Option<Url>)
    ensures r.Some? <==> name in env.resources
    ensures r.Some? ==> r.value == env.resources[name]
  {
    if name in env.resources then Some(env.resources[name]) else None
  }

  /** The directory listing `new File(dirURL.toURI()).list()`. */
  function DirectoryList(env: Env, url: Url): (r: Names)
    ensures r.Names? <==> url.path in env.directories
    ensures r.Names? ==> forall n :: n in r.names <==> n in env.directories[url.path]
  {
    if url.path in env.directories then Names(set n | n in env.directories[url.path]) else NullArray
  }

  // ---------------------------------------------------------------------------
  // The archive-entry filter (getResourcesFromJar)

  /** `s` cut at its first `/`: the first path segment of `s`. */
  function FirstSegment(s: string): (r: string)
    ensures '/' !in r
    ensures r <= s
    ensures r == s || s[|r|] == '/'
  {
    var i := IndexOf(s, '/');
    if i >= 0 then s[..i] else s
  }

  /** What one archive entry `name` contributes to the listing of folder `path`:
      nothing when it lies outside the folder, else the first segment of the rest. */
  function ChildOf(path: string, name: string): (r: Option<string>)
    ensures r.Some? <==> StartsWith(name, path)
    ensures r.Some? ==> '/' !in r.value && path + r.value <= name
    ensures r.Some? ==> path + r.value == name || name[|path| + |r.value|] == '/'
  {
    if StartsWith(name, path) then Some(FirstSegment(name[|path|..])) else None
  }

  /** The names one entry adds to the listing: none, or its `ChildOf` name. */
  function Contribution(path: string, name: string): (r: set<string>)
    ensures StartsWith(name, path) ==> r == {ChildOf(path, name).value}
    ensures !StartsWith(name, path) ==> r == {}
  {
    match ChildOf(path, name)
    case Some(n) => {n}
    case None => {}
  }

  /** The names the entry filter collects from `entries` for folder `path`. */
  function ListingOf(path: string, entries: seq<string>): (r: set<string>)
    ensures |r| <= |entries|
  {
    if entries == [] then {}
    else ListingOf(path, entries[..|entries| - 1]) + Contribution(path, entries[|entries| - 1])
  }

  /** Appending one entry adds exactly what that entry contributes. */
  lemma ListingSnoc(path: string, entries: seq<string>, e: string)
    ensures ListingOf(path, entries + [e])
      == ListingOf(path, entries) + Contribution(path, e)
  {
    assert (entries + [e])[..|entries|] == entries;
  }

  /** One step of the entry loop: the listing of the first `i + 1` entries adds
      entry `i`'s first segment after the prefix when it lies in the folder. */
  lemma ListingStep(path: string, entries: seq<string>, i: nat)
    requires i < |entries|
    ensures StartsWith(entries[i], path) ==>
      ListingOf(path, entries[..i + 1])
        == ListingOf(path, entries[..i]) + {FirstSegment(entries[i][|path|..])}
    ensures !StartsWith(entries[i], path) ==>
      ListingOf(path, entries[..i + 1]) == ListingOf(path, entries[..i])
  {
    assert entries[..i + 1] == entries[..i] + [entries[i]];
    ListingSnoc(path, entries[..i], entries[i]);
  }

  /** The archive file named by a jar URL's path: the characters from index 5
      (just after `file:`) up to the first `!`, or an index failure when there
      is no `!` at index 5 or later. */
  function ArchivePath(urlPath: string): (r: Result<string, Failure>)
    ensures r.Success? <==> IndexOf(urlPath, '!') >= 5
    ensures r.Failure? ==> r.error == IndexOutOfBounds
    ensures r.Success? ==>
      5 + |r.value| < |urlPath| && urlPath[5 + |r.value|] == '!'
      && '!' !in r.value && r.value == urlPath[5..5 + |r.value|]
  {
    match Substring(urlPath, 5, IndexOf(urlPath, '!'))
    case None => Failure(IndexOutOfBounds)
    case Some(jarPath) => Success(jarPath)
  }

  /** `getResourcesFromJar(path, dirURL)`: the children of folder `path` in the
      archive that `dirURL` points into. */
  function ResourcesFromJar(env: Env, path: string, url: Url): (r: Result<set<string>, Failure>)
    ensures r.Failure? ==> r.error.IOFailure? || r.error == IndexOutOfBounds
    ensures r.Success? <==>
      ArchivePath(url.path).Success? && env.decode(ArchivePath(url.path).value) in env.archives
    ensures ArchivePath(url.path).Failure? ==> r == Failure(IndexOutOfBounds)
    ensures ArchivePath(url.path).Success? && env.decode(ArchivePath(url.path).value) !in env.archives ==>
      r == Failure(IOFailure(env.decode(ArchivePath(url.path).value)))
  {
    var jarPath :- ArchivePath(url.path);
    var file := env.decode(jarPath);
    if file in env.archives then Success(ListingOf(path, env.archives[file]))
    else Failure(IOFailure(file))
  }

  /** The loop of `getResourcesFromJar`: walk the archive's entries, keep those
      under `path`, strip the prefix, cut at the first `/` and collect into a set. */
  method GetResourcesFromJar(env: Env, path: string, url: Url) returns (r: Result<set<string>, Failure>)
    ensures r == ResourcesFromJar(env, path, url)
  {
    var urlPath := url.path;
    var jarPathOrNone := Substring(urlPath, 5, IndexOf(urlPath, '!'));
    if jarPathOrNone.None? {
      return Failure(IndexOutOfBounds);
    }
    var file := env.decode(jarPathOrNone.value);
    if file !in env.archives {
      return Failure(IOFailure(file));
    }
    var entries := env.archives[file];
    var result: set<string> := {};
    var i := 0;
    while i < |entries|
      invariant 0 <= i <= |entries|
      invariant result == ListingOf(path, entries[..i])
    {
      var name := entries[i];
      ListingStep(path, entries, i);
      if StartsWith(name, path) {
        var entry := name[|path|..];
        var checkSubdir := IndexOf(entry, '/');
        if checkSubdir >= 0 {
          entry := entry[..checkSubdir];
        }
        assert entry == FirstSegment(name[|path|..]);
        result := result + {entry};
      }
      i := i + 1;
    }
    assert entries[..i] == entries;
    r := Success(result);
  }

  // ---------------------------------------------------------------------------
  // The two public overloads

  /** `getResourceNames(ClassLoader cl, Path p)`: look up `p + "/"`; a `file`
      URL is listed as a directory, a `jar` URL through the archive filter, and
      anything else (a null URL included) is unsupported. */
  function ResourceNamesByLoader(env: Env, p: string): (r: Result<Names, Failure>)
    ensures r.Failure? && r.error.Unsupported? <==>
      (p + "/" !in env.resources || env.resources[p + "/"].protocol !in {"file", "jar"})
    ensures r.Failure? ==> r.error != NullPointer
    ensures r.Success? && r.value.NullArray? ==>
      p + "/" in env.resources && env.resources[p + "/"].protocol == "file"
    ensures p + "/" in env.resources && env.resources[p + "/"].protocol == "file" ==>
      r == Success(DirectoryList(env, env.resources[p + "/"]))
  {
    var path := p + "/";
    var dirUrl := GetResource(env, path);
    if dirUrl.Some? && dirUrl.value.protocol == "file" then
      Success(DirectoryList(env, dirUrl.value))
    else if dirUrl.Some? && dirUrl.value.protocol == "jar" then
      var names :- ResourcesFromJar(env, path, dirUrl.value);
      Success(Names(names))
    else
      Failure(Unsupported(dirUrl))
  }

  /** The name of the resource holding class `className`: dots become slashes
      and `.class` is appended. */
  function ClassResourceName(className: string): (r: string)
    ensures |r| == |className| + 6 && r[|className|..] == ".class"
    ensures forall i :: 0 <= i < |className| ==>
      r[i] == (if className[i] == '.' then '/' else className[i])
  {
    Replace(className, '.', '/') + ".class"
  }

  /** `getResourceNames(Class clazz, String path)`: a `file` URL for the folder
      is listed as a directory; when the folder's URL is null the URL of the
      class itself is used instead, and a null there ends in a
      `NullPointerException`; a `jar` URL lists folder `path` in that archive;
      anything else is unsupported. */
  function ResourceNamesByClass(env: Env, className: string, path: string): (r: Result<Names, Failure>)
    ensures r.Failure? && r.error == NullPointer <==>
      path !in env.resources && ClassResourceName(className) !in env.resources
    ensures r.Failure? && r.error.Unsupported? ==> r.error.url.Some?
    ensures r.Failure? && r.error.Unsupported? <==>
      (path in env.resources && env.resources[path].protocol !in {"file", "jar"})
      || (path !in env.resources && ClassResourceName(className) in env.resources
          && env.resources[ClassResourceName(className)].protocol != "jar")
    ensures r.Success? && r.value.NullArray? ==>
      path in env.resources && env.resources[path].protocol == "file"
    ensures path in env.resources && env.resources[path].protocol == "file" ==>
      r == Success(DirectoryList(env, env.resources[path]))
  {
    var dirUrl := GetResource(env, path);
    if dirUrl.Some? && dirUrl.value.protocol == "file" then
      Success(DirectoryList(env, dirUrl.value))
    else
      var url := if dirUrl.None? then GetResource(env, ClassResourceName(className)) else dirUrl;
      if url.None? then
        Failure(NullPointer)
      else if url.value.protocol == "jar" then
        var names :- ResourcesFromJar(env, path, url.value);
        Success(Names(names))
      else
        Failure(Unsupported(url))
  }
}
