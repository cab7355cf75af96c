/** What the listing of `psp.std.Resources` promises, proved about the model. */
module ResourcesProperties {
  import opened Wrappers
  import opened JavaStrings
  import opened Resources

  /** A name is listed exactly when some entry lies under the folder and its
      prefix-stripped rest, cut at the first `/`, is that name. */
  lemma {:induction false} ListingMembers(path: string, entries: seq<string>, n: string)
    ensures n in ListingOf(path, entries) <==>
      exists j :: 0 <= j < |entries| && ChildOf(path, entries[j]) == Some(n)
  {
    if entries != [] {
      var init := entries[..|entries| - 1];
      ListingMembers(path, init, n);
      if n in ListingOf(path, init) {
        var j :| 0 <= j < |init| && ChildOf(path, init[j]) == Some(n);
        assert entries[j] == init[j];
      }
      if j :| 0 <= j < |entries| && ChildOf(path, entries[j]) == Some(n) {
        if j < |init| {
          assert init[j] == entries[j];
        }
      }
    }
  }

  /** The same, with the entries taken as a collection rather than by position. */
  lemma ListingMembersByEntry(path: string, entries: seq<string>, n: string)
    ensures n in ListingOf(path, entries) <==>
      exists e :: e in entries && ChildOf(path, e) == Some(n)
  {
    ListingMembers(path, entries, n);
    if e :| e in entries && ChildOf(path, e) == Some(n) {
      var j :| 0 <= j < |entries| && entries[j] == e;
    }
  }

  /** Every listed name is a single path segment: it contains no `/`. */
  lemma {:induction false} ListingHasNoSlash(path: string, entries: seq<string>)
    ensures forall n :: n in ListingOf(path, entries) ==> '/' !in n
  {
    if entries != [] {
      ListingHasNoSlash(path, entries[..|entries| - 1]);
    }
  }

  /** Every listed name, put after the folder prefix, is the start of some entry,
      which either ends there or goes on with a `/`. */
  lemma ListedNameIsEntryOrDirectory(path: string, entries: seq<string>, n: string)
    requires n in ListingOf(path, entries)
    ensures exists e :: e in entries && path + n <= e && (e == path + n || e[|path + n|] == '/')
  {
    ListingMembersByEntry(path, entries, n);
    var e :| e in entries && ChildOf(path, e) == Some(n);
    assert path + n <= e;
  }

  /** The listing does not depend on the order of the archive's entries. */
  lemma ListingOrderIndependent(path: string, a: seq<string>, b: seq<string>)
    requires multiset(a) == multiset(b)
    ensures ListingOf(path, a) == ListingOf(path, b)
  {
    forall n ensures n in ListingOf(path, a) <==> n in ListingOf(path, b) {
      ListingMembersByEntry(path, a, n);
      ListingMembersByEntry(path, b, n);
      forall e ensures e in a <==> e in b {
        assert e in a <==> e in multiset(a);
        assert e in b <==> e in multiset(b);
      }
    }
  }

  /** An entry outside the folder (`ab/y` when listing `a/`) contributes
      nothing, wherever it stands among the entries. */
  lemma UnrelatedEntryIgnored(path: string, before: seq<string>, e: string, after: seq<string>)
    requires !StartsWith(e, path)
    ensures ListingOf(path, before + [e] + after) == ListingOf(path, before + after)
  {
    forall n ensures n in ListingOf(path, before + [e] + after) <==> n in ListingOf(path, before + after) {
      ListingMembersByEntry(path, before + [e] + after, n);
      ListingMembersByEntry(path, before + after, n);
      forall x | x in before + [e] + after && ChildOf(path, x) == Some(n) ensures x in before + after {
        assert x in before || x == e || x in after;
      }
    }
  }

  /** An entry naming a file directly in the folder contributes that file's name. */
  lemma ChildOfImmediate(path: string, name: string)
    requires '/' !in name
    ensures ChildOf(path, path + name) == Some(name)
  {
    assert (path + name)[|path|..] == name;
  }

  /** An entry deeper in the folder contributes the name of its first subdirectory. */
  lemma ChildOfDeep(path: string, d: string, rest: string)
    requires '/' !in d
    ensures ChildOf(path, path + (d + "/" + rest)) == Some(d)
  {
    var s := d + "/" + rest;
    assert (path + s)[|path|..] == s;
    assert s[..|d|] == d && s[|d|] == '/';
  }

  /** The listing of two runs of entries is the union of their listings. */
  lemma {:induction false} ListingOfConcat(path: string, a: seq<string>, b: seq<string>)
    ensures ListingOf(path, a + b) == ListingOf(path, a) + ListingOf(path, b)
  {
    if b == [] {
      assert a + b == a;
    } else {
      var init := b[..|b| - 1];
      var last := b[|b| - 1];
      assert a + b == (a + init) + [last];
      assert b == init + [last];
      ListingSnoc(path, a + init, last);
      ListingSnoc(path, init, last);
      ListingOfConcat(path, a, init);
    }
  }

  /** A single entry lists exactly what it contributes. */
  lemma ListingOfOne(path: string, e: string)
    ensures ListingOf(path, [e]) == Contribution(path, e)
  {
    ListingSnoc(path, [], e);
    assert [] + [e] == [e];
  }

  /** A deep entry `path + d + "/" + rest` adds its first segment `d` and nothing else. */
  lemma DeepEntryAddsFirstSegment(path: string, entries: seq<string>, d: string, rest: string)
    requires '/' !in d
    ensures ListingOf(path, entries + [path + d + "/" + rest]) == ListingOf(path, entries) + {d}
  {
    assert path + d + "/" + rest == path + (d + "/" + rest);
    ChildOfDeep(path, d, rest);
    ListingSnoc(path, entries, path + d + "/" + rest);
  }

  /** An entry below subdirectory `d/` of the folder contributes exactly `d`. */
  lemma DeepEntryContribution(path: string, d: string, e: string)
    requires '/' !in d && StartsWith(e, path + d + "/")
    ensures Contribution(path, e) == {d}
  {
    var rest := e[|path + d + "/"|..];
    assert e == path + (d + "/" + rest);
    ChildOfDeep(path, d, rest);
  }

  /** Any number of deep entries below one subdirectory `d` of the folder
      collapse to the single name `d`. */
  lemma {:induction false} DeepEntriesCollapse(path: string, d: string, deep: seq<string>)
    requires '/' !in d && deep != []
    requires forall j :: 0 <= j < |deep| ==> StartsWith(deep[j], path + d + "/")
    ensures ListingOf(path, deep) == {d}
  {
    var init := deep[..|deep| - 1];
    var last := deep[|deep| - 1];
    DeepEntryContribution(path, d, last);
    assert ListingOf(path, deep) == ListingOf(path, init) + {d};
    if init != [] {
      assert forall j :: 0 <= j < |init| ==> init[j] == deep[j];
      DeepEntriesCollapse(path, d, init);
    }
  }

  /** An entry equal to the folder prefix itself (the folder's own directory
      record) puts the empty name in the listing. */
  lemma ExactPrefixYieldsEmptyName(path: string, entries: seq<string>)
    requires path in entries
    ensures "" in ListingOf(path, entries)
  {
    var j :| 0 <= j < |entries| && entries[j] == path;
    assert entries[j][|path|..] == "";
    ListingMembers(path, entries, "");
  }

  /** The archive path is recovered from a jar URL path built as five scheme
      characters (`file:`), the archive's file name, `!` and the entry path. */
  lemma ArchivePathOfJarUrl(scheme: string, file: string, entry: string)
    requires |scheme| == 5 && '!' !in scheme && '!' !in file
    ensures ArchivePath(scheme + file + "!" + entry) == Success(file)
  {
    var u := scheme + file + "!" + entry;
    var k := |scheme| + |file|;
    assert u[k] == '!';
    assert u[..k] == scheme + file;
    assert u[5..k] == file;
  }

  /** A jar URL path with no `!` from index 5 on makes `substring` throw. */
  lemma ArchivePathWithoutSeparatorFails(urlPath: string)
    requires |urlPath| >= 5 && '!' !in urlPath[5..]
    ensures ArchivePath(urlPath) == Failure(IndexOutOfBounds)
  {
  }

  /** When the archive listing succeeds, its names are exactly those the entry
      filter yields on the archive the URL points into. */
  lemma JarListingMembers(env: Env, path: string, url: Url, n: string)
    requires ResourcesFromJar(env, path, url).Success?
    ensures var file := env.decode(ArchivePath(url.path).value);
      file in env.archives &&
      (n in ResourcesFromJar(env, path, url).value <==>
        exists e :: e in env.archives[file] && ChildOf(path, e) == Some(n))
  {
    var file := env.decode(ArchivePath(url.path).value);
    ListingMembersByEntry(path, env.archives[file], n);
  }

  /** Through the class loader, a folder that resolves to a `jar` URL is
      listed in the archive that URL points into. */
  lemma LoaderListsJar(env: Env, p: string, url: Url)
    requires p + "/" in env.resources && env.resources[p + "/"] == url && url.protocol == "jar"
    ensures var r := ResourceNamesByLoader(env, p);
      match ResourcesFromJar(env, p + "/", url)
      case Success(names) => r == Success(Names(names))
      case Failure(e) => r == Failure(e)
  {
  }

  /** `getResourceNames(clazz, path)` lists a folder whose own URL is a `jar`
      URL through the archive filter, whatever the form of `path`. */
  lemma ByClassJar(env: Env, className: string, path: string, url: Url)
    requires path in env.resources && env.resources[path] == url && url.protocol == "jar"
    ensures var r := ResourceNamesByClass(env, className, path);
      match ResourcesFromJar(env, path, url)
      case Success(names) => r == Success(Names(names))
      case Failure(e) => r == Failure(e)
  {
  }

  /** The two overloads agree whenever the folder itself resolves:
      the class-name fallback only matters for a null folder URL. */
  lemma OverloadsAgree(env: Env, className: string, p: string)
    requires p + "/" in env.resources
    ensures ResourceNamesByClass(env, className, p + "/") == ResourceNamesByLoader(env, p)
  {
  }

  /** A folder that does not resolve on its own is listed in the archive that
      holds the class, under the original folder path. */
  lemma ClassFallbackListsClassArchive(env: Env, className: string, path: string)
    requires path !in env.resources
    requires ClassResourceName(className) in env.resources
    requires env.resources[ClassResourceName(className)].protocol == "jar"
    ensures var r := ResourceNamesByClass(env, className, path);
      match ResourcesFromJar(env, path, env.resources[ClassResourceName(className)])
      case Success(names) => r == Success(Names(names))
      case Failure(e) => r == Failure(e)
  {
  }

  /** The fallback is tried only for jars: a class that itself lives in a
      directory gives no listing of a folder that does not resolve. */
  lemma ClassFallbackInDirectoryUnsupported(env: Env, className: string, path: string)
    requires path !in env.resources
    requires ClassResourceName(className) in env.resources
    requires env.resources[ClassResourceName(className)].protocol == "file"
    ensures ResourceNamesByClass(env, className, path)
      == Failure(Unsupported(Some(env.resources[ClassResourceName(className)])))
  {
  }
}
