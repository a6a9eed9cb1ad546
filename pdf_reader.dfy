/** The page source of src/pdf_reader.py.

    The PDF library and the file system are not modelled: the existence of the
    file is a boolean input and the document is the sequence of its pages'
    extracted texts. What remains is the validation done on construction and
    the bounds check on page access. */
module Pdf {
  import opened Wrappers

  /** The exceptions the reader raises. */
  datatype PdfError =
    | FileNotFound(path: string)              // FileNotFoundError
    | NotAPdf(path: string)                   // ValueError: not a .pdf path
    | InvalidPageNumber(page: int, count: nat) // ValueError: page out of range

  /** `str.lower()` on one character, for the ASCII letters. */
  function LowerChar(c: char): char {
    if 'A' <= c <= 'Z' then (c as int - 'A' as int + 'a' as int) as char else c
  }

  /** `str.lower()`, character by character. */
  function Lower(s: string): string {
    if s == [] then [] else [LowerChar(s[0])] + Lower(s[1..])
  }

  lemma {:induction false} LowerAt(s: string)
    ensures |Lower(s)| == |s|
    ensures forall i :: 0 <= i < |s| ==> Lower(s)[i] == LowerChar(s[i])
  {
    if s != [] {
      LowerAt(s[1..]);
      assert forall i :: 1 <= i < |s| ==> Lower(s)[i] == Lower(s[1..])[i - 1];
    }
  }

  /** `str.endswith(suffix)`. */
  predicate EndsWith(s: string, suffix: string) {
    |suffix| <= |s| && s[|s| - |suffix|..] == suffix
  }

  /** The extension check of the constructor: `pdf_path.lower().endswith(".pdf")`. */
  predicate IsPdfPath(path: string) {
    EndsWith(Lower(path), ".pdf")
  }

  /** The extension check ignores case: it accepts exactly the paths whose
      last four characters are a dot and then p, d, f in either case. */
  lemma {:induction false} IsPdfPathCharacters(path: string)
    ensures IsPdfPath(path) <==>
      |path| >= 4 && path[|path| - 4] == '.'
      && path[|path| - 3] in "pP" && path[|path| - 2] in "dD" && path[|path| - 1] in "fF"
  {
    LowerAt(path);
    var n := |path|;
    if n >= 4 {
      var tail := Lower(path)[n - 4..];
      assert tail == [LowerChar(path[n - 4]), LowerChar(path[n - 3]), LowerChar(path[n - 2]), LowerChar(path[n - 1])];
    }
  }

  /** Upper-case and lower-case extensions are both accepted. */
  lemma {:induction false} PdfExtensionAnyCase(stem: string)
    ensures IsPdfPath(stem + ".pdf") && IsPdfPath(stem + ".PDF") && IsPdfPath(stem + ".Pdf")
  {
    IsPdfPathCharacters(stem + ".pdf");
    IsPdfPathCharacters(stem + ".PDF");
    IsPdfPathCharacters(stem + ".Pdf");
  }

  /** A path with another extension is refused, as "test.txt" is. */
  lemma {:induction false} OtherExtensionRefused(path: string)
    requires |path| >= 4 && path[|path| - 4..] == ".txt"
    ensures !IsPdfPath(path)
  {
    IsPdfPathCharacters(path);
    assert path[|path| - 1] == path[|path| - 4..][3];
  }

  /** A PDF document opened for reading. Every field is set once, by the
      constructor, and never changed. */
  class PdfReader {
    /** `_pdf_path`. */
    const filePath: string
    /** The extracted text of every page, in page order (`_reader.pages`). */
    const pages: seq<string>
    /** `_num_pages`. */
    const numPages: nat

    ghost predicate Valid() {
      numPages == |pages|
    }

    /** The assignments of `__init__`, once both checks have passed. */
    constructor (path: string, pages: seq<string>)
      requires IsPdfPath(path)
      ensures Valid() && filePath == path && this.pages == pages && numPages == |pages|
    {
      filePath := path;
      this.pages := pages;
      numPages := |pages|;
    }

    /** `PDFReader(pdf_path)`: fails when the file does not exist, then when
        its name does not end in ".pdf" in any case, and otherwise opens it. */
    static method Open(path: string, fileExists: bool, pages: seq<string>) returns (r: Result<PdfReader, PdfError>)
      ensures !fileExists ==> r == Failure(FileNotFound(path))
      ensures fileExists && !IsPdfPath(path) ==> r == Failure(NotAPdf(path))
      ensures fileExists && IsPdfPath(path) ==>
        r.Success? && fresh(r.value) && r.value.Valid()
        && r.value.filePath == path && r.value.numPages == |pages| && r.value.pages == pages
    {
      if !fileExists {
        return Failure(FileNotFound(path));
      }
      if !IsPdfPath(path) {
        return Failure(NotAPdf(path));
      }
      var reader := new PdfReader(path, pages);
      return Success(reader);
    }

    /** `get_page_text(page_num)`: the text of page `pageNum`, counted from 0. */
    function GetPageText(pageNum: int): (r: Result<string, PdfError>)
      requires Valid()
      ensures r.Success? <==> 0 <= pageNum < numPages
      ensures r.Success? ==> r.value == pages[pageNum]
      ensures r.Failure? ==> r.error == InvalidPageNumber(pageNum, numPages)
    {
      if !(0 <= pageNum < numPages) then Failure(InvalidPageNumber(pageNum, numPages))
      else Success(pages[pageNum])
    }

    /** `get_all_pages_text()`: `[get_page_text(i) for i in range(num_pages)]`. */
    function GetAllPagesText(): (r: seq<string>)
      requires Valid()
      ensures |r| == numPages
      ensures forall i :: 0 <= i < numPages ==> GetPageText(i) == Success(r[i])
    {
      seq(numPages, i requires 0 <= i < numPages && Valid() => GetPageText(i).value)
    }
  }
}
