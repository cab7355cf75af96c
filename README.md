# Resource folder listing (psp-std `Resources`)

A Dafny model of `psp.std.Resources`, which lists the immediate children of a
*resource folder* reachable through a class loader. The folder is backed either
by a plain directory (a `file:` URL) or by a path prefix inside a JAR archive (a
`jar:` URL whose path reads `file:<archive>!/<entry>`).

- `wrappers.dfy` — `Option` (a Java reference that may be null) and `Result`
  (a value or the exception that ended the call).
- `java_strings.dfy` — `startsWith`, `indexOf`, `substring` and one-character
  `replace` with Java's semantics, including the out-of-bounds failure of
  `substring`.
- `resources.dfy` — the model proper. `Env` stands for what the Java runtime
  answers: `ClassLoader.getResource`, `File.list()`, the entry names of each
  archive, and `URLDecoder.decode`. `ArchivePath` is the extraction of the
  archive path from a jar URL, `ListingOf` and `ChildOf` specify the archive
  entry filter, `GetResourcesFromJar` is that filter as the source runs it (a
  loop over the entries adding to a set) proved equal to its specification
  `ResourcesFromJar`, and `ResourceNamesByLoader` / `ResourceNamesByClass` are
  the two public overloads with their protocol dispatch and the class-name
  fallback.
- `resources_properties.dfy` — what the listing promises: membership
  characterisation, no `/` in a name, order independence, unrelated entries
  ignored, deep entries collapsing, the empty name from the folder's own
  record, the archive-path round trip, and how the two overloads relate.
- `scenarios.dfy` — concrete listings: flat files, an inferred subdirectory,
  a sibling prefix, a directory, a jar found through the loader and one found
  through the class-name fallback.

Behaviour worth noting:

- An entry equal to the folder prefix (a directory record such as `pkg/`)
  contributes the empty name `""`; nothing in `Resources.java` lines 69-76
  skips it, so a listed name can be empty.
- The class-name fallback is taken only when the folder URL is null, and only a
  `jar` URL is then listed. A class that lives in a directory gives
  `UnsupportedOperationException`, and a null class URL gives a
  `NullPointerException` (`Failure(NullPointer)`) at the protocol test.
- A directory that cannot be listed yields the null array that `File.list()`
  returns (`NullArray`), not an I/O failure.
- `substring(5, indexOf("!"))` drops the first five characters whatever they
  are; it does not check that they read `file:`. With no `!` at index 5 or
  later it throws (`Failure(IndexOutOfBounds)`).

## Model

| member | source | states |
|---|---|---|
| JavaStrings.StartsWithByIndex | std/src/main/java/psp/std/Resources.java:69 | `startsWith` holds exactly when the prefix is no longer than the string and agrees with it character by character |
| JavaStrings.IndexOf | std/src/main/java/psp/std/Resources.java:71 | the result is -1 exactly when the character is absent; otherwise it is an index holding the character with no earlier occurrence |
| JavaStrings.Substring | std/src/main/java/psp/std/Resources.java:62 | succeeds exactly when 0 <= begin <= end <= length, and then yields the characters between begin and end |
| JavaStrings.Replace | std/src/main/java/psp/std/Resources.java:49 | same length; each character equal to `from` becomes `to`, every other character is kept |
| Resources.GetResource | std/src/main/java/psp/std/Resources.java:13 | the lookup is non-null exactly when the class loader knows the name, and then it is the URL the loader maps the name to |
| Resources.DirectoryList | std/src/main/java/psp/std/Resources.java:16 | a listable directory gives exactly the names the file system reports; anything else gives the null array |
| Resources.FirstSegment | std/src/main/java/psp/std/Resources.java:71-75 | the result has no `/`, is a prefix of the input, and is either the whole input or is followed by a `/` |
| Resources.ChildOf | std/src/main/java/psp/std/Resources.java:69-76 | an entry contributes a name exactly when it starts with the folder prefix; the name has no `/`, and prefix + name is the entry itself or is followed in it by a `/` |
| Resources.ArchivePath | std/src/main/java/psp/std/Resources.java:62 | succeeds exactly when the first `!` is at index 5 or later, and then yields the characters from index 5 up to that `!`, which contain no `!`; otherwise an index failure |
| Resources.ResourcesFromJar | std/src/main/java/psp/std/Resources.java:60-83 | succeeds exactly when the archive path extracts and its decoded form names a known archive; a `!` missing or before index 5 gives exactly the index failure, and an unknown decoded archive gives exactly an I/O failure naming that file |
| Resources.GetResourcesFromJar | std/src/main/java/psp/std/Resources.java:60-83 | the loop over the entries, adding each in-folder entry's first segment to a set, returns exactly the listing `ResourcesFromJar` specifies |
| Resources.ResourceNamesByLoader | std/src/main/java/psp/std/Resources.java:11-23 | a `file` URL for `p + "/"` gives exactly that directory's listing; unsupported exactly when `p + "/"` does not resolve or resolves to neither `file` nor `jar`; never a null-pointer failure; a null array only from a `file` URL |
| Resources.ClassResourceName | std/src/main/java/psp/std/Resources.java:49 | the class name with every `.` turned into `/`, followed by `.class` |
| Resources.ResourceNamesByClass | std/src/main/java/psp/std/Resources.java:37-58 | a `file` URL for the folder gives exactly that directory's listing; a null-pointer failure exactly when neither the folder nor the class resource resolves; unsupported exactly when the folder resolves to neither `file` nor `jar`, or does not resolve and the class resource resolves to something other than `jar`, and then it names a non-null URL; a null array only from the folder's own `file` URL |
| ResourcesProperties.ListingMembers | std/src/main/java/psp/std/Resources.java:67-78 | a name is listed iff some entry starts with the prefix and its stripped rest, cut at the first `/`, equals the name |
| ResourcesProperties.ListingMembersByEntry | std/src/main/java/psp/std/Resources.java:67-78 | the same characterisation over the entries as a collection |
| ResourcesProperties.ListingHasNoSlash | std/src/main/java/psp/std/Resources.java:69-76 | no listed name contains `/` |
| ResourcesProperties.ListedNameIsEntryOrDirectory | std/src/main/java/psp/std/Resources.java:69-76 | every listed name, after the prefix, starts some entry that ends there or continues with `/` |
| ResourcesProperties.ListingOrderIndependent | std/src/main/java/psp/std/Resources.java:65-79 | two entry sequences that are permutations of each other give the same listing |
| ResourcesProperties.UnrelatedEntryIgnored | std/src/main/java/psp/std/Resources.java:69 | inserting an entry that does not start with the prefix, anywhere, leaves the listing unchanged |
| ResourcesProperties.ChildOfImmediate | std/src/main/java/psp/std/Resources.java:70-76 | an entry prefix + name with no `/` in name contributes name |
| ResourcesProperties.ChildOfDeep | std/src/main/java/psp/std/Resources.java:71-76 | an entry prefix + d + `/` + rest contributes only d |
| Resources.Contribution | std/src/main/java/psp/std/Resources.java:69-76 | an entry that starts with the folder prefix adds exactly its `ChildOf` name; any other entry adds nothing |
| Resources.ListingOf | std/src/main/java/psp/std/Resources.java:65-79 | the set of names the entry loop collects; it has at most as many names as there are entries |
| Resources.ListingStep | std/src/main/java/psp/std/Resources.java:67-77 | one loop step: an in-folder entry adds the first segment of its rest after the prefix, any other entry leaves the listing unchanged |
| Resources.ListingSnoc | std/src/main/java/psp/std/Resources.java:67-78 | appending one entry adds exactly that entry's contribution |
| ResourcesProperties.ListingOfConcat | std/src/main/java/psp/std/Resources.java:65-79 | the listing of two runs of entries is the union of their listings |
| ResourcesProperties.ListingOfOne | std/src/main/java/psp/std/Resources.java:68-77 | one entry lists exactly its own contribution |
| ResourcesProperties.DeepEntryAddsFirstSegment | std/src/main/java/psp/std/Resources.java:71-76 | a deep entry adds its first segment and nothing else |
| ResourcesProperties.DeepEntryContribution | std/src/main/java/psp/std/Resources.java:69-76 | any entry starting with prefix + d + `/` (d without `/`) contributes exactly d |
| ResourcesProperties.DeepEntriesCollapse | std/src/main/java/psp/std/Resources.java:66-79 | any non-empty number of entries under one subdirectory d give exactly the one name d |
| ResourcesProperties.ExactPrefixYieldsEmptyName | std/src/main/java/psp/std/Resources.java:70-76 | an entry equal to the prefix puts `""` in the listing |
| ResourcesProperties.ArchivePathOfJarUrl | std/src/main/java/psp/std/Resources.java:62 | for a path of five scheme characters, a file name without `!`, `!` and an entry, the file name is recovered |
| ResourcesProperties.ArchivePathWithoutSeparatorFails | std/src/main/java/psp/std/Resources.java:62 | with no `!` from index 5 on, the extraction fails with an index failure |
| ResourcesProperties.JarListingMembers | std/src/main/java/psp/std/Resources.java:62-79 | a successful archive listing is exactly the filter applied to the entries of the archive the decoded URL path names |
| ResourcesProperties.LoaderListsJar | std/src/main/java/psp/std/Resources.java:18-20 | through the class loader, a `jar` folder URL is listed in its archive under `p + "/"` |
| ResourcesProperties.OverloadsAgree | std/src/main/java/psp/std/Resources.java:11-58 | when the folder resolves, both overloads give the same outcome |
| ResourcesProperties.ByClassJar | std/src/main/java/psp/std/Resources.java:38-55 | a folder that resolves to a `jar` URL, whatever the form of its path, is listed through the archive filter under that path |
| ResourcesProperties.ClassFallbackListsClassArchive | std/src/main/java/psp/std/Resources.java:44-55 | a folder that does not resolve is listed, under its own path, in the archive holding the class |
| ResourcesProperties.ClassFallbackInDirectoryUnsupported | std/src/main/java/psp/std/Resources.java:44-57 | a folder that does not resolve, with the class in a directory, is unsupported |
| ResourcesScenarios.FlatArchiveListing | std/src/main/java/psp/std/Resources.java:65-79 | entries `data/a`, `data/b`, `data/c`, `other/x` listed under `data/` give `a`, `b`, `c` |
| ResourcesScenarios.InferredSubdirectoryListing | std/src/main/java/psp/std/Resources.java:65-79 | for any folder p, entries p, p + `readme.md`, p + `sub/one.bin`, p + `sub/two.bin` give `""`, `readme.md`, `sub` (so `pkg/` with its directory record gives these three) |
| ResourcesScenarios.SiblingPrefixNotListed | std/src/main/java/psp/std/Resources.java:69 | entries `a/x`, `ab/y`, `a/z` listed under `a/` give `x`, `z` |
| ResourcesScenarios.DirectoryFolderThroughLoader | std/src/main/java/psp/std/Resources.java:12-17 | a folder resolving to a `file` URL lists the directory's names |
| ResourcesScenarios.JarFolderThroughLoader | std/src/main/java/psp/std/Resources.java:12-20 | `pkg` resolving to `file:/tmp/app.jar!/pkg/` lists `""`, `readme.md`, `sub` from that archive |
| ResourcesScenarios.ResourcesClassName | std/src/main/java/psp/std/Resources.java:49 | class `psp.std.Resources` lives in resource `psp/std/Resources.class` |
| ResourcesScenarios.JarFolderThroughClassFallback | std/src/main/java/psp/std/Resources.java:44-55 | with no URL for `data/`, the jar holding `psp.std.Resources` is listed: `a`, `b`, `c` |

## Left out

- `ClassLoader.getResource`, `URL.getProtocol`/`getPath`, `File.list()`, `JarFile.entries()` and `URLDecoder.decode` are runtime calls, not implementations: the loader's lookup, the directory listings, the archive entries and the decoding are fields of `Env` (maps and a decoding function), and a URL's protocol and path are the `protocol` and `path` fields of `Url`.
- Percent- and UTF-8 decoding of the archive path is the `decode` function of `Env`; its own failures are not modelled.
- `URISyntaxException` from `toURI()` and `IOException` while reading entries are not modelled; only an archive that cannot be opened fails (`IOFailure`).
- Closing the archive in the `finally` block is not modelled; the model has no handles or other state.
- `clazz.getClassLoader()` returning null (a bootstrap class) is not modelled: one class loader answers every lookup.
- Resources.DirectoryList: gives the names as a set; the order and any duplicates of the array `File.list()` returns are not kept.
- Resources.ResourcesFromJar: gives a set; the unspecified order of the array made from the `HashSet` is not modelled.
- `java.nio.file.Path` is taken as its string form `p`.
- Resources.DirectoryList: `new File(dirURL.toURI())` throws `IllegalArgumentException` for a `file` URI with an authority, query or fragment; the model always gives `Names` or `NullArray`.
- JavaStrings.Substring: Java strings count UTF-16 code units while a Dafny `char` is a whole Unicode scalar value, so the fixed index 5 of `substring(5, …)` counts differently when a supplementary character comes before it.
