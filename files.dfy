/** The résumé files: which names the folder scan keeps and how it counts
    them, and which text extractor a path is dispatched to. The extractors
    themselves (pypdf, python-docx, a plain read, pandas) are one parameter
    that may return no text. */
module Files {
  import opened Wrappers
  import opened Text
  import opened Seqs

  datatype Format = Pdf | Docx | Txt | Csv

  function Ext(f: Format): string {
    match f
    case Pdf => ".pdf"
    case Docx => ".docx"
    case Txt => ".txt"
    case Csv => ".csv"
  }

  /** The four extensions end in four different letters, so a text ends with
      at most one of them. */
  lemma ExtensionsExclusive(s: string, f: Format, g: Format)
    requires EndsWith(s, Ext(f)) && EndsWith(s, Ext(g))
    ensures f == g
  {
    assert s[|s| - 1] == Ext(f)[|Ext(f)| - 1] == Ext(g)[|Ext(g)| - 1];
  }

  /** The `if/elif` chain on `dosya_yolu.lower()`: the format whose extension
      ends the lower-cased path, and none when no extension does. */
  function FormatOf(path: string): (r: Option<Format>)
    ensures forall f :: r == Some(f) <==> EndsWith(Lower(path), Ext(f))
  {
    var l := Lower(path);
    if EndsWith(l, ".pdf") then
      assert EndsWith(l, Ext(Pdf));
      forall g | EndsWith(l, Ext(g)) ensures g == Pdf { ExtensionsExclusive(l, Pdf, g); }
      Some(Pdf)
    else if EndsWith(l, ".docx") then
      assert EndsWith(l, Ext(Docx));
      forall g | EndsWith(l, Ext(g)) ensures g == Docx { ExtensionsExclusive(l, Docx, g); }
      Some(Docx)
    else if EndsWith(l, ".txt") then
      assert EndsWith(l, Ext(Txt));
      forall g | EndsWith(l, Ext(g)) ensures g == Txt { ExtensionsExclusive(l, Txt, g); }
      Some(Txt)
    else if EndsWith(l, ".csv") then
      assert EndsWith(l, Ext(Csv));
      forall g | EndsWith(l, Ext(g)) ensures g == Csv { ExtensionsExclusive(l, Csv, g); }
      Some(Csv)
    else
      None
  }

  /** The extension test is blind to case: any spelling of an extension that
      lower-cases to it, after any stem, selects that format. */
  lemma DispatchIgnoresCase(stem: string, spelling: string, f: Format)
    requires Lower(spelling) == Ext(f)
    ensures FormatOf(stem + spelling) == Some(f)
  {
  }

  /** An extractor per format; `None` is a file that could not be read. */
  type Extractor = (Format, string) -> Option<string>

  /** The text a path yields: the extractor of the extension that ends the
      lower-cased path, and no text at all when none of the four does. */
  function ExtractText(path: string, extract: Extractor): (t: Option<string>)
    ensures (forall f :: !EndsWith(Lower(path), Ext(f))) ==> t.None?
    ensures forall f :: EndsWith(Lower(path), Ext(f)) ==> t == extract(f, path)
  {
    match FormatOf(path)
    case None => None
    case Some(f) => extract(f, path)
  }

  // ---------------------------------------------------------------------
  // The folder scan
  // ---------------------------------------------------------------------

  /** `f.lower().endswith(('.pdf', '.docx', '.txt', '.csv'))`. The scan and
      the dispatch agree on which names are résumés. */
  predicate Supported(name: string)
    ensures Supported(name) <==> FormatOf(name).Some?
  {
    var l := Lower(name);
    EndsWith(l, ".pdf") || EndsWith(l, ".docx") || EndsWith(l, ".txt") || EndsWith(l, ".csv")
  }

  /** The names the scan keeps: exactly the supported ones, each as often as
      it is listed, in listing order. */
  function ScanNames(listing: seq<string>): (names: seq<string>)
    ensures IsSubsequence(names, listing)
    ensures forall x :: multiset(names)[x] == if Supported(x) then multiset(listing)[x] else 0
  {
    FilterCounts(listing, Supported);
    FilterIsSubsequence(listing, Supported);
    Filter(listing, Supported)
  }

  /** Joining a name to a directory keeps the name's format, and a name
      without '/' is the base name of the joined path. */
  lemma JoinKeepsName(dir: string, n: string)
    ensures FormatOf(Join(dir, n)) == FormatOf(n)
    ensures '/' !in n ==> Basename(Join(dir, n)) == n
  {
    forall f ensures EndsWith(Lower(Join(dir, n)), Ext(f)) <==> EndsWith(Lower(n), Ext(f)) {
      JoinEndsWith(dir, n, Ext(f));
    }
    if '/' !in n {
      JoinBasename(dir, n);
    }
  }

  /** `[os.path.join(cv_klasoru, f) for f in dosyalar]`: one path per name,
      each dispatched like its name and, for a name without '/', having that
      name as its base name. */
  function JoinAll(dir: string, names: seq<string>): (paths: seq<string>)
    ensures |paths| == |names|
    ensures forall i :: 0 <= i < |names| ==> FormatOf(paths[i]) == FormatOf(names[i])
    ensures forall i :: 0 <= i < |names| && '/' !in names[i] ==> Basename(paths[i]) == names[i]
  {
    forall n | n in names ensures FormatOf(Join(dir, n)) == FormatOf(n)
      ensures '/' !in n ==> Basename(Join(dir, n)) == n
    {
      JoinKeepsName(dir, n);
    }
    seq(|names|, i requires 0 <= i < |names| => Join(dir, names[i]))
  }

  /** The test `f.lower().endswith(ext)` of one count. */
  function HasExt(f: Format): string -> bool {
    x => EndsWith(Lower(x), Ext(f))
  }

  /** `sum(1 for f in dosyalar if f.lower().endswith(ext))`: the number of
      names whose lower-cased form ends in the extension. */
  function CountFormat(names: seq<string>, f: Format): (n: nat)
    ensures n <= |names|
  {
    if names == [] then 0
    else (if EndsWith(Lower(names[0]), Ext(f)) then 1 else 0) + CountFormat(names[1..], f)
  }

  /** A count is the number of names the comprehension with that
      extension's test keeps. */
  lemma {:induction false} CountFormatIsFilter(names: seq<string>, f: Format)
    ensures CountFormat(names, f) == |Filter(names, HasExt(f))|
    decreases |names|
  {
    if names != [] {
      CountFormatIsFilter(names[1..], f);
    }
  }

  /** What the scan reports: the number of files and the number of each type,
      or a warning when nothing was found. */
  datatype ScanReport =
    | Found(total: nat, pdf: nat, docx: nat, txt: nat, csv: nat)
    | NothingFound

  /** The report: "found" exactly when there is a name, and then, when every
      name is supported, the four counts add up to the total. */
  function ReportOf(names: seq<string>): (r: ScanReport)
    ensures r.Found? <==> names != []
    ensures r.Found? ==> r.total == |names|
    ensures r.Found? ==>
      && r.pdf == |Filter(names, HasExt(Pdf))| && r.docx == |Filter(names, HasExt(Docx))|
      && r.txt == |Filter(names, HasExt(Txt))| && r.csv == |Filter(names, HasExt(Csv))|
    ensures r.Found? && (forall x :: x in names ==> Supported(x)) ==>
      r.pdf + r.docx + r.txt + r.csv == r.total
  {
    assert (forall x :: x in names ==> Supported(x)) ==> CountAll(names) == |names| by {
      if forall x :: x in names ==> Supported(x) {
        CountsAddUp(names);
      }
    }
    CountFormatIsFilter(names, Pdf);
    CountFormatIsFilter(names, Docx);
    CountFormatIsFilter(names, Txt);
    CountFormatIsFilter(names, Csv);
    if |names| > 0 then
      Found(|names|, CountFormat(names, Pdf), CountFormat(names, Docx),
            CountFormat(names, Txt), CountFormat(names, Csv))
    else
      NothingFound
  }

  /** The four counts together: the sum over the four formats. */
  function CountAll(names: seq<string>): nat {
    CountFormat(names, Pdf) + CountFormat(names, Docx) + CountFormat(names, Txt) + CountFormat(names, Csv)
  }

  /** A supported first name adds exactly one to the four counts together. */
  lemma CountsStep(names: seq<string>)
    requires names != [] && Supported(names[0])
    ensures CountAll(names) == 1 + CountAll(names[1..])
  {
    var l := Lower(names[0]);
    var f := FormatOf(names[0]).value;
    assert EndsWith(l, Ext(f));
    forall g | g != f ensures !EndsWith(l, Ext(g)) {
      if EndsWith(l, Ext(g)) { ExtensionsExclusive(l, f, g); }
    }
    var rest := names[1..];
    assert CountFormat(names, Pdf) == (if f == Pdf then 1 else 0) + CountFormat(rest, Pdf);
    assert CountFormat(names, Docx) == (if f == Docx then 1 else 0) + CountFormat(rest, Docx);
    assert CountFormat(names, Txt) == (if f == Txt then 1 else 0) + CountFormat(rest, Txt);
    assert CountFormat(names, Csv) == (if f == Csv then 1 else 0) + CountFormat(rest, Csv);
  }

  /** Every kept name has exactly one of the four extensions, so the four
      counts add up to the number of names. */
  lemma {:induction false} CountsAddUp(names: seq<string>)
    requires forall x :: x in names ==> Supported(x)
    ensures CountAll(names) == |names|
  {
    if names != [] {
      CountsStep(names);
      assert forall x :: x in names[1..] ==> x in names;
      CountsAddUp(names[1..]);
    }
  }

  /** The report of a scan: "found" exactly when some name was kept, and then
      its per-type counts add up to the total. */
  lemma ScanReportAddsUp(listing: seq<string>)
    ensures var names := ScanNames(listing);
      && (ReportOf(names).Found? <==> names != [])
      && (ReportOf(names).Found? ==>
            ReportOf(names).pdf + ReportOf(names).docx + ReportOf(names).txt + ReportOf(names).csv
            == ReportOf(names).total == |names|)
  {
    var names := ScanNames(listing);
    forall x | x in names ensures Supported(x) {
      assert multiset(names)[x] > 0;
    }
  }

  /** Every path the scan stores is dispatched to the extractor of its
      name's format, never to "no text", and its base name is the listed
      name (a listed name holds no '/'). */
  lemma ScannedPathsDispatch(dir: string, listing: seq<string>)
    requires forall x :: x in listing ==> '/' !in x
    ensures var names := ScanNames(listing);
      var paths := JoinAll(dir, names);
      forall i :: 0 <= i < |paths| ==>
        && FormatOf(paths[i]).Some?
        && FormatOf(paths[i]) == FormatOf(names[i])
        && Basename(paths[i]) == names[i]
  {
    var names := ScanNames(listing);
    var paths := JoinAll(dir, names);
    forall i | 0 <= i < |paths|
      ensures FormatOf(paths[i]).Some?
      ensures FormatOf(paths[i]) == FormatOf(names[i])
      ensures Basename(paths[i]) == names[i]
    {
      var n := names[i];
      assert multiset(names)[n] > 0;
      assert Supported(n) && n in listing;
    }
  }
}
