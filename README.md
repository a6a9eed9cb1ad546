# Semantic page search, modelled in Dafny

This project models the two working parts of a small semantic-search tool for
PDF books:

- **`SemanticSearch`** (`src/semantic_search.py`), the in-memory index. It
  keeps two parallel dictionaries keyed by page index, page text (`_pages`)
  and page embedding (`_embeddings`). `add_pages` enumerates a list of pages
  from 0 and writes each page and its embedding under its position.
  `search` embeds the query, scores every stored embedding against it, sorts
  the (index, score) pairs by score descending with a stable sort, and returns
  the first `k` as (index, text, score) triples.
- **`PDFReader`** (`src/pdf_reader.py`), the page source. Its constructor
  refuses a path that does not exist, then a path whose lower-cased form does
  not end in `.pdf`. It then records the path and the page count. Pages are
  read by a 0-based index with a bounds check, or all at once in page order.

Files:

- `wrappers.dfy`: module `Wrappers`, the `Result` type that stands for a raised
  exception.
- `semantic_search.dfy`: module `Search`, with the class `SemanticSearch`. The
  embedding provider `embed` and the similarity measure `similarity` are
  functions given to the constructor. Scores are reals, so they are totally
  ordered. The two dictionaries are `map<nat, _>` fields. `Valid()` states
  that both maps have the same keys and that those keys are exactly
  `0 .. n-1`. The dictionary's insertion order is not represented. It is
  ascending key order because `add_pages` inserts keys upward from 0 with
  `enumerate`: with the keys already `0 .. n-1`, any key it inserts for the
  first time is `n`, larger than every existing key, and overwriting a key does
  not move it. So `search` iterates the indices `0 .. n-1` in order. `search` builds the (index, score) list in an array,
  sorts it in place with a stable insertion sort (`SortByScore`), and then
  takes the Python slice `[:k]`.
- `pdf_reader.dfy`: module `Pdf`, with the class `PdfReader`. Its fields are
  `const`, because `__init__` sets them once. The file system check is a
  boolean input, and the document is the sequence of its pages' texts.
  `Open` plays the role of `PDFReader(path)`: a Dafny constructor cannot fail,
  so `Open` returns a `Result`.

Behaviour of the code that the model keeps as written:

- `add_pages` restarts numbering at 0 on every call, so a second call
  overwrites keys `0 .. M-1` and keeps higher keys from earlier calls
  (`AddPages`, `EnumeratedTables`).
- `search` does not validate `k`: `k = 0` gives an empty result and a negative
  `k` drops the last `-k` entries, as Python slicing does (`SliceLength`,
  `Search`). `k` defaults to 3, as in the source.
- The docstring of `get_all_pages_text` promises a 1-based dictionary. The code
  returns a 0-based list (`GetAllPagesText`).

## Model

| member | source | states |
|---|---|---|
| `Search.OverwriteAt` | src/semantic_search.py:34-39 | after enumerating a list into a table, key `i < len(s)` holds `s[i]`, every other old key keeps its value, and the key set is the old keys plus `0 .. len(s)-1` |
| `Search.OverwriteDense` | src/semantic_search.py:34-39 | enumerating into a table whose keys are `0 .. n-1` leaves keys `0 .. max(n, len(s))-1` |
| `Search.EnumeratedTables` | src/semantic_search.py:34-39 | after `add_pages`, text and embedding tables still share one key set `0 .. max(n, M)-1`; key `i < M` holds page `i` and `embed(page i)`; keys `>= M` keep their old text and embedding |
| `Search.SinkLeft` | src/semantic_search.py:88 | one insertion step: the entry moves left past strictly lower scores only, the prefix becomes ranked (score descending, ties by ascending index), the rest is untouched, and the array is a permutation of the old one |
| `Search.SortByScore` | src/semantic_search.py:88 | the stable descending sort: given ascending indices, the result is a permutation of the input, ordered by score descending, with equal scores in ascending index order |
| `Search.PermutedPairs` | src/semantic_search.py:82-88 | every entry of a permutation of the pairs `(0, s0), (1, s1), ...` is one of those pairs, at its own index |
| `Search.LeftOutRanksAfter` | src/semantic_search.py:82-92 | in a ranked permutation of the pairs, a pair missing from the first `m` entries ranks after each of them |
| `Search.LeftOutOfHits` | src/semantic_search.py:88-93 | a page whose index is absent from results taken in order from the ranked pairs ranks after every result |
| `Search.SemanticSearch.constructor` | src/semantic_search.py:12-26 | a new index has empty text and embedding tables, satisfies the table invariant, and keeps the given embedding provider and similarity measure |
| `Search.SemanticSearch.AddPages` | src/semantic_search.py:28-39 | numbering restarts at 0; page `i` and `embed(page i)` are stored under key `i`; keys `>= len(pages)` keep their text and embedding; no other key appears; both tables keep the same key set |
| `Search.SemanticSearch.ScoreAll` | src/semantic_search.py:82-85 | one `(index, score)` pair per stored embedding, in ascending index order, each score being the similarity of the query embedding with that stored embedding |
| `Search.SemanticSearch.Collect` | src/semantic_search.py:91-93 | the result loop: entry `p` is the `p`-th ranked index with its stored text and its score |
| `Search.SemanticSearch.SortedPairsStored` | src/semantic_search.py:82-93 | every index of the sorted pairs names a stored page, so looking up `_pages[idx]` cannot fail |
| `Search.SemanticSearch.RankedResults` | src/semantic_search.py:82-95 | the results name stored pages with their stored text and their own score, in score-descending order with ties by ascending index, and no stored page left out ranks before any result |
| `Search.SemanticSearch.Search` | src/semantic_search.py:68-95 | returns `len(similarities[:k])` entries: `min(k, n)` for `k >= 0`, and nothing for an empty index. Each entry is a distinct stored page with its text and score, ordered by score descending with ties by ascending index. No omitted page scores higher than a returned one, or ties with one and has a lower index. The tables are not modified |
| `Search.SearchTopThree` | src/semantic_search.py:68 | `search(query)` without `k` uses the default 3: it returns `min(3, n)` results |
| `Pdf.LowerAt` | src/pdf_reader.py:20 | lower-casing keeps the length and lowers each character in place |
| `Pdf.IsPdfPathCharacters` | src/pdf_reader.py:20-21 | a path passes the extension check exactly when its last four characters are `.`, then `p`, `d`, `f`, each in either case |
| `Pdf.PdfExtensionAnyCase` | src/pdf_reader.py:20 | `.pdf`, `.PDF` and `.Pdf` are all accepted after any stem |
| `Pdf.OtherExtensionRefused` | tests/test_pdf_reader.py:31-35 | a path ending in `.txt` fails the extension check |
| `Pdf.PdfReader.constructor` | src/pdf_reader.py:23-25 | the reader records the path, the pages and the page count `len(pages)` |
| `Pdf.PdfReader.Open` | src/pdf_reader.py:7-25 | a missing file fails with `FileNotFound`, whatever its name; an existing file whose lower-cased name does not end in `.pdf` fails with `NotAPdf`; otherwise a new reader has `file_path` equal to the path and `num_pages` equal to the number of pages |
| `Pdf.PdfReader.GetPageText` | src/pdf_reader.py:45-62 | succeeds exactly when `0 <= page_num < num_pages`, with the text of page `page_num` counted from 0; otherwise fails with `InvalidPageNumber` carrying the page number and the count |
| `Pdf.PdfReader.GetAllPagesText` | src/pdf_reader.py:64-70 | a list of `num_pages` texts whose `i`-th element is what `get_page_text(i)` returns |

## Left out

- The OpenAI client, the API key, `load_dotenv` and the environment lookup (src/semantic_search.py:18-22). The embedding call (src/semantic_search.py:50-54) is the function `embed` passed to the constructor. It always returns a vector, so provider failures are not modelled. In the source a failure would leave the tables out of step: line 36 stores `_pages[idx]` before line 38 calls the provider, so a failing call leaves a key in `_pages` that `_embeddings` lacks, or new text beside the old page's embedding. The "same key set" part of `Valid()` holds only because `embed` cannot fail.
- The cosine similarity (src/semantic_search.py:66) is floating-point numerics. It is the function `similarity` passed to the constructor, into the reals. A zero-norm vector makes the source produce NaN, and NaN breaks the total order that Python's sort relies on. The model does not cover that case.
- Python's sort is Timsort, not insertion sort. Any stable sort of the same list yields the same list, and `SortByScore` proves the result ordered and a permutation. So the insertion sort stands in for Timsort without changing the result.
- `os.path.exists` is a boolean input to `Open`. pypdf's `PdfReader` and `extract_text` are replaced by a sequence of already-extracted page texts. Errors raised by pypdf are not modelled.
- `Pdf.IsPdfPath`: `str.lower()` is modelled for the ASCII letters only. No other character lower-cases to `.`, `p`, `d` or `f`, so the suffix check is unaffected.
- src/driver.py: wiring and printing with a fixed file path, no logic.
