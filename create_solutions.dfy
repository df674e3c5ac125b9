/**
 * The indexer of scripts/createSolutions.js: for every folder of a directory
 * listing that holds an `index.html`, build a solution entry (headline, path,
 * image, snippet) from the page and store it under the folder's name.
 *
 * The filesystem and the HTML parser are abstracted away: a listing is a
 * sequence of `DirItem`s, and a parsed page is the `Doc` of strings that the
 * program's CSS selectors return, with "" standing for "nothing matched".
 */
module CreateSolutions {
  import opened Wrappers

  /** What the selectors queried on one page return; "" means the selector
      matched nothing, the text is empty, or the `src` attribute is missing. */
  datatype Doc = Doc(
    h1: string,          // text of the first `h1`
    h2: string,          // text of the first `h2`
    h3: string,          // text of the first `h3`
    title: string,       // text of the first `title`
    previewSrc: string,  // `src` of the first `.previewImage img`
    contentSrc: string,  // `src` of the first `#content img`
    paragraph: string    // text of the first `#content .paragraph`
  )

  /** One entry of the listing of the solutions directory: its name, whether
      `lstat` of `<solutionsDir>/<name>` calls it a regular file, and the parsed
      page if `existsSync` finds `index.html` at the path that `path.join("./",
      <solutionsDir>/<name>, "index.html")` gives, which is relative to the
      working directory even when `solutionsDir` is absolute. */
  datatype DirItem = DirItem(name: string, isFile: bool, indexHtml: Option<Doc>)

  /** The record stored in the index for one solution folder. */
  datatype Solution = Solution(headline: string, path: string, image: string, snippet: string)

  type SolutionIndex = map<string, Solution>

  const Ellipsis: string := " ..."
  const PathPrefix: string := "solutions/"
  const ImagePrefix: string := "./solutions/"
  /** The one key that a plain JavaScript object does not store as its own property. */
  const ProtoKey: string := "__proto__"

  // ---------------------------------------------------------------------------
  // Fallback chains
  // ---------------------------------------------------------------------------

  /** JavaScript `a || b` on strings: the empty string is falsy. */
  function JsOr(a: string, b: string): (r: string)
    ensures a != "" ==> r == a
    ensures r == "" <==> a == "" && b == ""
    ensures r == a || r == b
  {
    if a != "" then a else b
  }

  /** The reference meaning of a fallback chain: the first non-empty candidate,
      or "" when every candidate is empty. */
  function FirstNonEmpty(candidates: seq<string>): (r: string)
    ensures r == "" <==> forall i | 0 <= i < |candidates| :: candidates[i] == ""
    ensures r != "" ==> exists k | 0 <= k < |candidates| ::
              r == candidates[k] && forall j | 0 <= j < k :: candidates[j] == ""
  {
    if candidates == [] then ""
    else if candidates[0] != "" then candidates[0]
    else
      var r := FirstNonEmpty(candidates[1..]);
      assert forall i | 1 <= i < |candidates| :: candidates[i] == candidates[1..][i - 1];
      r
  }

  /** The headline chain as written: `h1 || h2 || h3 || title || ""`. */
  function Headline(d: Doc): (r: string)
    ensures r == "" <==> d.h1 == "" && d.h2 == "" && d.h3 == "" && d.title == ""
    ensures r == d.h1 || r == d.h2 || r == d.h3 || r == d.title
    ensures d.h1 != "" ==> r == d.h1
  {
    JsOr(JsOr(JsOr(JsOr(d.h1, d.h2), d.h3), d.title), "")
  }

  /** The image-source chain as written: `previewSrc || contentSrc || ""`. */
  function ImageSource(d: Doc): (r: string)
    ensures r == "" <==> d.previewSrc == "" && d.contentSrc == ""
    ensures r == d.previewSrc || r == d.contentSrc
    ensures d.previewSrc != "" ==> r == d.previewSrc
  {
    JsOr(JsOr(d.previewSrc, d.contentSrc), "")
  }

  /** The snippet chain as written: `paragraph || ""`. */
  function RawSnippet(d: Doc): (r: string)
    ensures r == d.paragraph
  {
    JsOr(d.paragraph, "")
  }

  lemma HeadlineChoice(d: Doc)
    ensures Headline(d) == FirstNonEmpty([d.h1, d.h2, d.h3, d.title])
    ensures d.h1 != "" ==> Headline(d) == d.h1
    ensures d.h1 == "" && d.h2 != "" ==> Headline(d) == d.h2
    ensures d.h1 == "" && d.h2 == "" && d.h3 != "" ==> Headline(d) == d.h3
    ensures d.h1 == "" && d.h2 == "" && d.h3 == "" ==> Headline(d) == d.title
  {
    assert [d.title][1..] == [];
    assert FirstNonEmpty([d.title]) == d.title;
    assert [d.h3, d.title][1..] == [d.title];
    assert FirstNonEmpty([d.h3, d.title]) == JsOr(d.h3, d.title);
    assert [d.h2, d.h3, d.title][1..] == [d.h3, d.title];
    assert FirstNonEmpty([d.h2, d.h3, d.title]) == JsOr(d.h2, JsOr(d.h3, d.title));
    assert [d.h1, d.h2, d.h3, d.title][1..] == [d.h2, d.h3, d.title];
  }

  lemma ImageSourceChoice(d: Doc)
    ensures ImageSource(d) == FirstNonEmpty([d.previewSrc, d.contentSrc])
    ensures d.previewSrc != "" ==> ImageSource(d) == d.previewSrc
    ensures d.previewSrc == "" ==> ImageSource(d) == d.contentSrc
  {
  }

  lemma RawSnippetChoice(d: Doc)
    ensures RawSnippet(d) == FirstNonEmpty([d.paragraph]) == d.paragraph
  {
  }

  // ---------------------------------------------------------------------------
  // Snippet truncation
  // ---------------------------------------------------------------------------

  /** JavaScript `s.slice(0, end)` for an integer `end`: a negative `end`
      counts back from the end of `s`, and the end is clamped to `[0, |s|]`.
      The contract is the way `String.prototype.slice` is defined in ECMAScript:
      the length it keeps, and that what it keeps is a prefix. `Truncate`'s
      proof relies on it. */
  function SlicePrefix(s: string, end: int): (r: string)
    ensures |r| == if end < 0 then (if |s| + end < 0 then 0 else |s| + end)
                   else (if end < |s| then end else |s|)
    ensures r == s[..|r|]
  {
    if end < 0 then (if |s| + end < 0 then [] else s[..|s| + end])
    else if end < |s| then s[..end] else s
  }

  /** Lines 20-21: a snippet longer than the limit keeps the prefix that
      JavaScript's `slice` gives for an end one below the limit, and gets the
      ellipsis appended; any other snippet is kept as it is. `None` is a limit
      that is absent or converts to `NaN`, which no length exceeds; an empty or
      blank argument converts to 0 and is `Some(0)`. */
  function Truncate(s: string, limit: Option<int>): (r: string)
    ensures limit.None? ==> r == s
    ensures limit.Some? && |s| <= limit.value ==> r == s
    ensures limit.Some? && 1 <= limit.value < |s| ==>
              r == s[..limit.value - 1] + Ellipsis && |r| == limit.value + 3
    ensures limit == Some(0) && 0 < |s| ==> r == s[..|s| - 1] + Ellipsis
    ensures limit.Some? && limit.value < 0 ==>
              r == s[..if |s| + limit.value - 1 < 0 then 0 else |s| + limit.value - 1] + Ellipsis
    ensures limit.Some? && limit.value < |s| ==> |r| >= |Ellipsis| && r[|r| - |Ellipsis|..] == Ellipsis
  {
    if limit.Some? && |s| > limit.value then SlicePrefix(s, limit.value - 1) + Ellipsis else s
  }

  /** With no limit or a limit of at least one, truncating twice is truncating once:
      the kept prefix of `s[..L-1] + " ..."` is again `s[..L-1]`. */
  lemma TruncateIdempotent(s: string, limit: Option<int>)
    requires limit.None? || limit.value >= 1
    ensures Truncate(Truncate(s, limit), limit) == Truncate(s, limit)
  {
  }

  /** A limit of zero is not idempotent: `slice(0, -1)` drops the last character
      each time and a further ellipsis is appended. */
  lemma TruncateAtZeroNotIdempotent()
    ensures Truncate(Truncate("a", Some(0)), Some(0)) != Truncate("a", Some(0))
  {
  }

  // ---------------------------------------------------------------------------
  // Image path and the entry record
  // ---------------------------------------------------------------------------

  /** Line 26: a non-empty source is rewritten relative to the site root;
      an empty one stays empty. */
  function ImagePath(name: string, src: string): (r: string)
    ensures r == "" <==> src == ""
    ensures src != "" ==> |r| > |ImagePrefix + name + "/"|
  {
    if src != "" then ImagePrefix + name + "/" + src else ""
  }

  /** The raw source can be read back from the rewritten path: dropping the
      folder prefix gives it back. */
  lemma ImagePathRecoversSource(name: string, src: string)
    requires src != ""
    ensures ImagePath(name, src)[..|ImagePrefix + name + "/"|] == ImagePrefix + name + "/"
    ensures ImagePath(name, src)[|ImagePrefix + name + "/"|..] == src
  {
  }

  /** For a fixed folder, different raw sources give different image paths. */
  lemma ImagePathInjective(name: string, a: string, b: string)
    requires ImagePath(name, a) == ImagePath(name, b)
    ensures a == b
  {
    if a != "" {
      ImagePathRecoversSource(name, a);
      ImagePathRecoversSource(name, b);
    }
  }

  /** Lines 17-28: the entry built for folder `name` from its page `d`. */
  function MakeSolution(name: string, d: Doc, limit: Option<int>): (e: Solution)
    ensures e.path == PathPrefix + name
    ensures e.headline == FirstNonEmpty([d.h1, d.h2, d.h3, d.title])
    ensures FirstNonEmpty([d.previewSrc, d.contentSrc]) == "" ==> e.image == ""
    ensures FirstNonEmpty([d.previewSrc, d.contentSrc]) != "" ==>
              e.image == ImagePrefix + name + "/" + FirstNonEmpty([d.previewSrc, d.contentSrc])
    ensures e.snippet == Truncate(d.paragraph, limit)
  {
    HeadlineChoice(d);
    ImageSourceChoice(d);
    RawSnippetChoice(d);
    var headline := Headline(d);
    var imagePath := ImageSource(d);
    var snippet := Truncate(RawSnippet(d), limit);
    Solution(headline, PathPrefix + name, ImagePath(name, imagePath), snippet)
  }

  // ---------------------------------------------------------------------------
  // Index accumulation
  // ---------------------------------------------------------------------------

  /** Lines 13 and 15: an item is indexed when it is not a regular file and has an `index.html`. */
  predicate IsSolutionFolder(item: DirItem)
  {
    !item.isFile && item.indexHtml.Some?
  }

  /** Line 23: `obj[key] = value` on the plain object `solutions`, seen as the
      map of its own properties. Any key but `__proto__` becomes an own property
      holding `value`. `__proto__` runs the prototype setter inherited from
      `Object.prototype` instead, so no own property is added and the entry never
      reaches the printed or serialised index. */
  function SetProperty(obj: SolutionIndex, key: string, value: Solution): (r: SolutionIndex)
    ensures key == ProtoKey ==> r == obj
    ensures key != ProtoKey ==> r.Keys == obj.Keys + {key} && r[key] == value
    ensures forall k | k in obj && k != key :: k in r && r[k] == obj[k]
  {
    if key == ProtoKey then obj else obj[key := value]
  }

  /** One iteration of the `forEach` body applied to the index built so far. */
  function Visit(m: SolutionIndex, item: DirItem, limit: Option<int>): (r: SolutionIndex)
    ensures r.Keys == if IsSolutionFolder(item) && item.name != ProtoKey then m.Keys + {item.name} else m.Keys
    ensures forall k | k in m && k != item.name :: r[k] == m[k]
    ensures !IsSolutionFolder(item) || item.name == ProtoKey ==> r == m
    ensures IsSolutionFolder(item) && item.name != ProtoKey ==>
              r[item.name] == MakeSolution(item.name, item.indexHtml.value, limit)
  {
    if IsSolutionFolder(item) then SetProperty(m, item.name, MakeSolution(item.name, item.indexHtml.value, limit))
    else m
  }

  /** The index after visiting every item of `listing`, in order, from an empty
      object: every stored entry's `path` is `solutions/` followed by its own key,
      and `__proto__` is never a key. */
  function Index(listing: seq<DirItem>, limit: Option<int>): (r: SolutionIndex)
    ensures forall k | k in r :: k != ProtoKey && r[k].path == PathPrefix + k
  {
    if listing == [] then map[]
    else Visit(Index(listing[..|listing| - 1], limit), listing[|listing| - 1], limit)
  }

  /** The names of the items of `listing` that are solution folders. */
  ghost function SolutionNames(listing: seq<DirItem>): set<string>
  {
    set i | 0 <= i < |listing| && IsSolutionFolder(listing[i]) :: listing[i].name
  }

  /** No two items of a directory listing share a name. */
  ghost predicate DistinctNames(listing: seq<DirItem>)
  {
    forall i, j | 0 <= i < j < |listing| :: listing[i].name != listing[j].name
  }

  /** The index has exactly one key per solution folder not named `__proto__`,
      and no other key. */
  lemma {:induction false} IndexKeys(listing: seq<DirItem>, limit: Option<int>)
    ensures Index(listing, limit).Keys == SolutionNames(listing) - {ProtoKey}
  {
    if listing != [] {
      var n := |listing| - 1;
      var front := listing[..n];
      IndexKeys(front, limit);
      SolutionNamesLast(listing);
      assert Index(listing, limit) == Visit(Index(front, limit), listing[n], limit);
    }
  }

  /** The solution folders of a listing are those of all but its last item,
      plus the last item when it is one. */
  lemma SolutionNamesLast(listing: seq<DirItem>)
    requires listing != []
    ensures var n := |listing| - 1;
            SolutionNames(listing)
            == SolutionNames(listing[..n]) + (if IsSolutionFolder(listing[n]) then {listing[n].name} else {})
  {
  }

  /** In a listing with distinct names, every solution folder's key holds the
      entry built from that folder's own page. */
  lemma {:induction false} IndexEntries(listing: seq<DirItem>, limit: Option<int>, i: nat)
    requires DistinctNames(listing)
    requires i < |listing| && IsSolutionFolder(listing[i]) && listing[i].name != ProtoKey
    ensures listing[i].name in Index(listing, limit)
    ensures Index(listing, limit)[listing[i].name]
            == MakeSolution(listing[i].name, listing[i].indexHtml.value, limit)
  {
    var n := |listing| - 1;
    var front := listing[..n];
    assert Index(listing, limit) == Visit(Index(front, limit), listing[n], limit);
    if i < n {
      DistinctNamesPrefix(listing, n);
      assert front[i] == listing[i];
      IndexEntries(front, limit, i);
      assert listing[i].name != listing[n].name;
    }
  }

  lemma DistinctNamesPrefix(listing: seq<DirItem>, n: nat)
    requires DistinctNames(listing) && n <= |listing|
    ensures DistinctNames(listing[..n])
  {
  }

  /** In a listing with distinct names, an item that is a file or has no page has no key. */
  lemma SkippedItemHasNoKey(listing: seq<DirItem>, limit: Option<int>, i: nat)
    requires DistinctNames(listing)
    requires i < |listing| && !IsSolutionFolder(listing[i])
    ensures listing[i].name !in Index(listing, limit)
  {
    IndexKeys(listing, limit);
  }

  /** A folder named `__proto__` is never indexed, even when it holds a page. */
  lemma ProtoFolderHasNoKey(d: Doc, limit: Option<int>)
    ensures Index([DirItem(ProtoKey, false, Some(d))], limit) == map[]
  {
  }

  /** Lines 6-31: `solutions` starts empty and the `forEach` loop adds one key
      per solution folder of the listing, except a folder named `__proto__`. */
  method BuildSolutions(listing: seq<DirItem>, limit: Option<int>) returns (solutions: SolutionIndex)
    ensures solutions == Index(listing, limit)
    ensures solutions.Keys == SolutionNames(listing) - {ProtoKey}
  {
    solutions := map[];
    var i := 0;
    while i < |listing|
      invariant 0 <= i <= |listing|
      invariant solutions == Index(listing[..i], limit)
    {
      var dirItem := listing[i];
      if !dirItem.isFile {
        match dirItem.indexHtml {
          case Some(indexHtml) =>
            solutions := SetProperty(solutions, dirItem.name, MakeSolution(dirItem.name, indexHtml, limit));
          case None =>
        }
      }
      assert listing[..i + 1][..i] == listing[..i];
      i := i + 1;
    }
    assert listing[..i] == listing;
    IndexKeys(listing, limit);
  }

  // ---------------------------------------------------------------------------
  // Worked scenario
  // ---------------------------------------------------------------------------

  /** A folder `alpha` with a page, a plain file `beta` and a folder `gamma`
      without a page: with a limit of 20 only `alpha` is indexed, and its
      snippet keeps 19 characters before the ellipsis. */
  lemma AlphaBetaGammaScenario()
    ensures var page := Doc("Alpha Title", "", "", "", "pic.png", "",
                            "This is a long description exceeding the limit.");
            var listing := [DirItem("alpha", false, Some(page)),
                            DirItem("beta", true, None),
                            DirItem("gamma", false, None)];
            Index(listing, Some(20)).Keys == {"alpha"} &&
            Index(listing, Some(20))["alpha"]
              == Solution("Alpha Title", "solutions/alpha", "./solutions/alpha/pic.png",
                          "This is a long desc ...")
  {
    var page := Doc("Alpha Title", "", "", "", "pic.png", "",
                    "This is a long description exceeding the limit.");
    var listing := [DirItem("alpha", false, Some(page)),
                    DirItem("beta", true, None),
                    DirItem("gamma", false, None)];
    assert listing[..2][..1] == [listing[0]];
    assert listing[..2] == listing[..2];
    assert Index([listing[0]], Some(20)) == map["alpha" := MakeSolution("alpha", page, Some(20))];
    assert Index(listing, Some(20)) == map["alpha" := MakeSolution("alpha", page, Some(20))];
    assert Truncate(page.paragraph, Some(20)) == "This is a long desc ...";
  }
}
