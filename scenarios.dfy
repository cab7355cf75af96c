/** Concrete listings: the archive shapes a resource folder typically has. */
module ResourcesScenarios {
  import opened Wrappers
  import opened Resources
  import opened ResourcesProperties

  /** The listing of three entries is what each contributes. */
  lemma ListingOfThree(p: string, a: string, b: string, c: string)
    ensures ListingOf(p, [a, b, c]) == Contribution(p, a) + Contribution(p, b) + Contribution(p, c)
  {
    ListingOfOne(p, a);
    ListingSnoc(p, [a], b);
    ListingSnoc(p, [a, b], c);
    assert [a] + [b] == [a, b] && [a, b] + [c] == [a, b, c];
  }

  /** The listing of four entries is what each contributes. */
  lemma ListingOfFour(p: string, a: string, b: string, c: string, d: string)
    ensures ListingOf(p, [a, b, c, d])
      == Contribution(p, a) + Contribution(p, b) + Contribution(p, c) + Contribution(p, d)
  {
    ListingOfThree(p, a, b, c);
    ListingSnoc(p, [a, b, c], d);
    assert [a, b, c] + [d] == [a, b, c, d];
  }

  /** Flat files under `data/`; the unrelated `other/x` is not listed. */
  lemma FlatArchiveListing(p: string, entries: seq<string>)
    requires p == "data/"
    requires entries == [p + "a", p + "b", p + "c", "other/x"]
    ensures ListingOf(p, entries) == {"a", "b", "c"}
  {
    assert Contribution(p, entries[0]) == {"a"} by { ChildOfImmediate(p, "a"); }
    assert Contribution(p, entries[1]) == {"b"} by { ChildOfImmediate(p, "b"); }
    assert Contribution(p, entries[2]) == {"c"} by { ChildOfImmediate(p, "c"); }
    assert Contribution(p, entries[3]) == {} by { assert "other/x"[0] != p[0]; }
    ListingOfFour(p, entries[0], entries[1], entries[2], entries[3]);
  }

  /** Both entries below `sub` contribute the one name `sub`. */
  lemma SubdirectoryEntries(p: string)
    ensures ChildOf(p, p + "sub/one.bin") == Some("sub")
    ensures ChildOf(p, p + "sub/two.bin") == Some("sub")
  {
    assert "sub" + "/" + "one.bin" == "sub/one.bin" && "sub" + "/" + "two.bin" == "sub/two.bin";
    ChildOfDeep(p, "sub", "one.bin");
    ChildOfDeep(p, "sub", "two.bin");
  }

  /** Four entries of which the last two contribute the same name list three names. */
  lemma ListingOfFourSharingLast(p: string, a: string, b: string, c: string, d: string, x: string, y: string, z: string)
    requires Contribution(p, a) == {x} && Contribution(p, b) == {y}
    requires Contribution(p, c) == {z} && Contribution(p, d) == {z}
    ensures ListingOf(p, [a, b, c, d]) == {x, y, z}
  {
    ListingOfFour(p, a, b, c, d);
  }

  /** Two deep entries under `sub` give one `sub`; the folder's own record
      (`pkg/` for the folder `pkg/`) gives the empty name. */
  lemma InferredSubdirectoryListing(p: string, entries: seq<string>)
    requires entries == [p, p + "readme.md", p + "sub/one.bin", p + "sub/two.bin"]
    ensures ListingOf(p, entries) == {"", "readme.md", "sub"}
  {
    assert Contribution(p, entries[0]) == {""} by {
      assert entries[0] == p + "";
      ChildOfImmediate(p, "");
    }
    assert Contribution(p, entries[1]) == {"readme.md"} by {
      ChildOfImmediate(p, "readme.md");
    }
    assert Contribution(p, entries[2]) == {"sub"} && Contribution(p, entries[3]) == {"sub"} by {
      SubdirectoryEntries(p);
    }
    ListingOfFourSharingLast(p, entries[0], entries[1], entries[2], entries[3], "", "readme.md", "sub");
  }

  /** `ab/y` shares the first letter of the folder `a/` but is not under it. */
  lemma SiblingPrefixNotListed(p: string, entries: seq<string>)
    requires p == "a/"
    requires entries == [p + "x", "ab/y", p + "z"]
    ensures ListingOf(p, entries) == {"x", "z"}
  {
    assert Contribution(p, entries[0]) == {"x"} by { ChildOfImmediate(p, "x"); }
    assert Contribution(p, entries[1]) == {} by { assert "ab/y"[1] != p[1]; }
    assert Contribution(p, entries[2]) == {"z"} by { ChildOfImmediate(p, "z"); }
    ListingOfThree(p, entries[0], entries[1], entries[2]);
  }

  /** A folder on the class path as a directory: its children as the file system reports them. */
  lemma DirectoryFolderThroughLoader(env: Env)
    requires env.resources == map["rsrc/" := Url("file", "/tmp/rsrc/")]
    requires env.directories == map["/tmp/rsrc/" := ["a.txt", "b.txt", "sub"]]
    ensures ResourceNamesByLoader(env, "rsrc") == Success(Names({"a.txt", "b.txt", "sub"}))
  {
    assert "rsrc" + "/" == "rsrc/";
    var listed := DirectoryList(env, Url("file", "/tmp/rsrc/"));
    assert listed.names == {"a.txt", "b.txt", "sub"};
  }

  /** A folder inside a jar, found through the class loader: the URL's path
      names the archive, whose entries are then filtered. */
  lemma JarFolderThroughLoader(env: Env, p: string, urlPath: string, entries: seq<string>)
    requires p == "pkg"
    requires urlPath == "file:" + "/tmp/app.jar" + "!" + "/pkg/"
    requires env.resources == map["pkg/" := Url("jar", urlPath)]
    requires entries == ["pkg/", "pkg/" + "readme.md", "pkg/" + "sub/one.bin", "pkg/" + "sub/two.bin"]
    requires env.archives == map["/tmp/app.jar" := entries]
    requires env.decode("/tmp/app.jar") == "/tmp/app.jar"
    ensures ResourceNamesByLoader(env, p) == Success(Names({"", "readme.md", "sub"}))
  {
    var url := Url("jar", urlPath);
    assert p + "/" == "pkg/";
    assert ArchivePath(urlPath) == Success("/tmp/app.jar") by {
      ArchivePathOfJarUrl("file:", "/tmp/app.jar", "/pkg/");
    }
    assert ListingOf("pkg/", entries) == {"", "readme.md", "sub"} by {
      InferredSubdirectoryListing("pkg/", entries);
    }
    assert ResourcesFromJar(env, p + "/", url) == Success({"", "readme.md", "sub"});
    LoaderListsJar(env, p, url);
  }

  /** The class `psp.std.Resources` is held in the resource `psp/std/Resources.class`. */
  lemma ResourcesClassName(className: string)
    requires className == "psp.std.Resources"
    ensures ClassResourceName(className) == "psp/std/Resources.class"
  {
    var r := ClassResourceName(className);
    var want := "psp/std/Resources.class";
    assert |r| == |want|;
    forall i | 0 <= i < |want| ensures r[i] == want[i] {
      if i >= |className| {
        assert r[i] == r[|className|..][i - |className|];
      }
    }
  }

  /** The jar holds no record for the folder itself, so the resource of the
      class (`psp/std/Resources.class` for `psp.std.Resources`) identifies the archive. */
  lemma JarFolderThroughClassFallback(env: Env, className: string, urlPath: string, entries: seq<string>)
    requires className == "psp.std.Resources"
    requires urlPath == "file:" + "/tmp/app.jar" + "!" + "/psp/std/Resources.class"
    requires env.resources == map[ClassResourceName(className) := Url("jar", urlPath)]
    requires entries == ["data/" + "a", "data/" + "b", "data/" + "c", "other/x"]
    requires env.archives == map["/tmp/app.jar" := entries]
    requires env.decode("/tmp/app.jar") == "/tmp/app.jar"
    ensures ResourceNamesByClass(env, className, "data/") == Success(Names({"a", "b", "c"}))
  {
    var url := Url("jar", urlPath);
    assert "data/" !in env.resources by {
      assert |ClassResourceName(className)| > |"data/"|;
    }
    assert ArchivePath(urlPath) == Success("/tmp/app.jar") by {
      ArchivePathOfJarUrl("file:", "/tmp/app.jar", "/psp/std/Resources.class");
    }
    assert ListingOf("data/", entries) == {"a", "b", "c"} by {
      FlatArchiveListing("data/", entries);
    }
    assert ResourcesFromJar(env, "data/", url) == Success({"a", "b", "c"});
    ClassFallbackListsClassArchive(env, className, "data/");
  }
}
