# Solutions indexer, modelled in Dafny

`scripts/createSolutions.js` scans a directory of solution folders. For every
entry that is not a regular file and holds an `index.html`, it builds a
record with four fields (`headline`, `path`, `image`, `snippet`) from that
page and stores it under the folder's name in the `solutions` index. The
index is then printed and written out as JSON.

This project models the logic of `main` once the filesystem and the HTML
parser are replaced by abstract inputs:

- a directory listing is a `seq<DirItem>`; each item has a name, the
  `isFile` answer of `lstat` on `<solutionsDir>/<name>`, and `Option<Doc>`:
  the parsed page when `existsSync` finds the file at
  `path.join("./", <solutionsDir>/<name>, "index.html")`, a path that is
  relative to the working directory even for an absolute `solutionsDir`;
- a `Doc` holds the strings the selectors return (`h1`, `h2`, `h3`, `title`,
  the `src` of `.previewImage img` and of `#content img`, and the text of
  `#content .paragraph`). `""` stands for a selector that matches nothing,
  an empty text, or a missing attribute. JavaScript's `||` treats all of
  these as falsy;
- the snippet limit is an `Option<int>`. `None` stands for `argv[4]` being
  absent or converting to `NaN` (such as `abc`), because `length > undefined`
  and `length > NaN` are both false. An empty or blank argument converts to
  0 and is `Some(0)`. Integer limits are modelled exactly, including 0 and
  negative values, through a model of JavaScript's `slice(0, end)`.

Files:

- `wrappers.dfy` holds the `Option` type.
- `create_solutions.dfy` (module `CreateSolutions`) holds four parts:
  - the `||` fallback chains, written as the source nests them, and their
    reference meaning `FirstNonEmpty`;
  - snippet truncation;
  - the image path and the entry record;
  - the index: a specification function `Index` that folds one loop step,
    `Visit`, over the listing, and the method `BuildSolutions` that runs the
    `forEach` loop to fill a map. The map holds the own properties of the
    plain object `solutions`; property assignment on it is `SetProperty`.

Four consequences of lines 20-26 and of line 23:

- A truncated snippet is `L - 1` characters plus `" ..."`, so it is
  `L + 3` characters long.
- With a limit of 0, `slice(0, -1)` drops only the last character, and the
  ellipsis is still appended.
- The `path` and `image` prefixes are the literal `solutions/` and
  `./solutions/`. They do not depend on the directory that was scanned.
- A folder named `__proto__` gets no key. On a plain object, assigning to
  `__proto__` replaces the object's prototype instead of adding a property,
  so that entry is neither printed nor serialised.

## Model

| member | source | states |
|---|---|---|
| `CreateSolutions.JsOr` | scripts/createSolutions.js:17-19 | JavaScript `a \|\| b` on strings is `a` whenever `a` is non-empty; it is "" exactly when both operands are "", and is always one of its operands |
| `CreateSolutions.Headline` | scripts/createSolutions.js:17 | the headline chain as written is "" exactly when h1, h2, h3 and title are all "", is always one of them, and is h1 whenever h1 is non-empty |
| `CreateSolutions.ImageSource` | scripts/createSolutions.js:18 | the image-source chain as written is "" exactly when both srcs are "", is always one of them, and is the preview src whenever that is non-empty |
| `CreateSolutions.RawSnippet` | scripts/createSolutions.js:19 | `paragraph \|\| ""` is the paragraph text itself |
| `CreateSolutions.FirstNonEmpty` | scripts/createSolutions.js:17-19 | a fallback chain gives "" exactly when every candidate is empty; otherwise it gives the candidate at some position k such that every earlier candidate is empty |
| `CreateSolutions.HeadlineChoice` | scripts/createSolutions.js:17 | the headline chain `h1 \|\| h2 \|\| h3 \|\| title \|\| ""` is the first non-empty of h1, h2, h3 and title; an h1 with empty text does not win |
| `CreateSolutions.ImageSourceChoice` | scripts/createSolutions.js:18 | the raw image source is the preview-image src when it is non-empty, else the content-image src (which may be "") |
| `CreateSolutions.RawSnippetChoice` | scripts/createSolutions.js:19 | the raw snippet is the paragraph text, or "" when there is none |
| `CreateSolutions.SlicePrefix` | scripts/createSolutions.js:21 | `slice(0, end)` returns a prefix of the string; a negative end counts back from the end, and the result is clamped to the string's length |
| `CreateSolutions.Truncate` | scripts/createSolutions.js:20-22 | the snippet is unchanged when there is no limit or its length is at most L; for 1 <= L < length it is the first L-1 characters plus " ...", of length L+3; for L = 0 it drops the last character and appends " ..."; for L < 0 it keeps the first length+L-1 characters (none if that is negative) and appends " ..."; every truncated snippet ends in " ..." |
| `CreateSolutions.TruncateIdempotent` | scripts/createSolutions.js:20-21 | with no limit, or a limit of at least 1, truncating an already truncated snippet changes nothing |
| `CreateSolutions.TruncateAtZeroNotIdempotent` | scripts/createSolutions.js:20-21 | with a limit of 0, truncating twice differs from truncating once (shown on "a") |
| `CreateSolutions.ImagePath` | scripts/createSolutions.js:26 | the image is "" exactly when the raw source is ""; otherwise it is longer than the prefix `./solutions/<name>/` |
| `CreateSolutions.ImagePathRecoversSource` | scripts/createSolutions.js:26 | a rewritten image path starts with `./solutions/<name>/`, and dropping that prefix gives the raw source back |
| `CreateSolutions.ImagePathInjective` | scripts/createSolutions.js:26 | for one folder, two raw sources that give the same image path are equal |
| `CreateSolutions.MakeSolution` | scripts/createSolutions.js:17-28 | the entry's path is always `solutions/<name>`; its headline is the first non-empty heading or title; its image is "" when both image sources are empty, else `./solutions/<name>/` plus the first non-empty source; its snippet is the truncated paragraph text |
| `CreateSolutions.IsSolutionFolder` | scripts/createSolutions.js:13-15 | the loop's test: an item is processed when it is not a regular file and its `index.html` exists |
| `CreateSolutions.SetProperty` | scripts/createSolutions.js:23 | assigning a property of a plain object adds or overwrites that own key and keeps every other key and value; assigning `__proto__` adds no own key |
| `CreateSolutions.Visit` | scripts/createSolutions.js:13-29 | one loop step adds the item's name to the keys exactly when the item is a folder with an `index.html` and is not named `__proto__`, and then stores that folder's entry under it; it leaves every other key and its entry untouched; any other item leaves the map unchanged |
| `CreateSolutions.Index` | scripts/createSolutions.js:9-31 | the `forEach` over the listing as a fold of the loop step from an empty object; in the result every entry's `path` is `solutions/` followed by its own key, and `__proto__` is never a key |
| `CreateSolutions.IndexKeys` | scripts/createSolutions.js:9-31 | after the whole listing, the keys of the index are exactly the names of the items that are not files and have an `index.html`, less `__proto__` |
| `CreateSolutions.IndexEntries` | scripts/createSolutions.js:23-28 | in a listing with distinct names, each solution folder not named `__proto__` has a key holding the entry built from that folder's own page |
| `CreateSolutions.SkippedItemHasNoKey` | scripts/createSolutions.js:13-15 | in a listing with distinct names, a plain file or a folder without `index.html` contributes no key |
| `CreateSolutions.ProtoFolderHasNoKey` | scripts/createSolutions.js:23 | a folder named `__proto__` with a page yields an empty index |
| `CreateSolutions.BuildSolutions` | scripts/createSolutions.js:6-31 | the loop that fills `solutions` returns exactly the fold of the loop step over the listing, and its keys are exactly the solution folders' names other than `__proto__` |
| `CreateSolutions.AlphaBetaGammaScenario` | scripts/createSolutions.js:9-31 | for a listing of folder `alpha` with a page, file `beta` and folder `gamma` without a page, limit 20: only `alpha` is indexed, with headline "Alpha Title", path "solutions/alpha", image "./solutions/alpha/pic.png" and snippet "This is a long desc ..." |

## Left out

- Filesystem calls (`readdirSync`, `lstatSync`, `existsSync`, `readFileSync`, `writeFileSync`) and the normalisation done by `path.join` are I/O. The listing, the file test and the page's existence are inputs.
- Every filesystem call is assumed to succeed. In the program, any call that throws ends `main` before line 33, and no index is written. Examples: an `index.html` that is itself a directory (`existsSync` is true, then `readFileSync` throws), an unreadable page, or an entry removed between `readdirSync` and `lstatSync`. The model indexes such an entry as if its page had been read.
- `SetProperty`: the new prototype that assigning `__proto__` gives `solutions` is not modelled. Only its visible effect is modelled: no own key is added. An inherited property never appears in `console.log` or `JSON.stringify` output.
- HTML parsing and CSS selector matching (`cheerio.load`, `.first()`, `.text()`, `.attr()`) belong to a library outside this repository. Their results are the strings of `Doc`. An `undefined` attribute and an empty one are both `""`, because `||` treats them alike.
- `console.log` of the index and its `JSON.stringify` serialisation are output only. The model ends with the map that would be serialised. Key order in the JSON text is not modelled.
- The `process.argv.length > 3` gate only decides whether `main` runs at all. The limit argument is modelled only through its effect: `None` when it is absent.
- Turning the limit argument from a string into a number follows JavaScript coercion rules, which are not modelled. A limit that converts to `NaN` (such as `abc`) behaves like `None`. An empty or blank argument converts to 0 and behaves like `Some(0)`. Other coercions are not modelled: `Infinity`, fractional limits, and `slice` truncating a fractional end.
- `Truncate`: string length counts sequence elements, not UTF-16 code units.
- The implicit globals `item` and `fileStats` and the `solutionsDir` and `outputFile` parameters only build file paths, so they do not appear in the model.
- `IndexEntries`: requires distinct names, which a directory listing guarantees. Without them, the last item with a given name wins, as the map update in `Visit` shows.
- Running the indexer twice on the same tree gives the same index, because `Index` is a function of its inputs. Byte-identical JSON output is outside the model.
