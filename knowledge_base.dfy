/** `getKnowledgeBaseFiles`, which the init and chat routes each define with the same text:
    the PDF files of `public/knowledge-base`, or else the two fixed files in `public` that exist. */
module KnowledgeBase {
  import opened Wrappers
  import opened Text

  /** A path as `path.join` builds it: a directory, as a list of segments, and a file name. */
  datatype FilePath = FilePath(dir: seq<string>, name: string)

  /** The two files the fallback looks for in `public`, in this order. */
  const PublicFiles: seq<string> := ["Retailer_Roleplay_Knowledge_Base_Atomberg.pdf", "Knowledge Base.pdf"]

  /** A file name ending in ".pdf" in any ASCII case. */
  predicate IsPdfName(name: string) {
    EndsWith(Lower(name), ".pdf")
  }

  /** The directory entries that are PDF files, in listed order. */
  function PdfNames(entries: seq<string>): (r: seq<string>)
    ensures |r| <= |entries|
    ensures forall n :: n in r <==> n in entries && IsPdfName(n)
  {
    if |entries| == 0 then []
    else if IsPdfName(entries[0]) then [entries[0]] + PdfNames(entries[1..])
    else PdfNames(entries[1..])
  }

  /** Filtering a listing in two parts is filtering each part: the filter keeps the listed order. */
  lemma {:induction false} PdfNamesAppend(a: seq<string>, b: seq<string>)
    ensures PdfNames(a + b) == PdfNames(a) + PdfNames(b)
  {
    if |a| == 0 {
      assert a + b == b;
    } else {
      assert (a + b)[0] == a[0];
      assert (a + b)[1..] == a[1..] + b;
      PdfNamesAppend(a[1..], b);
      if IsPdfName(a[0]) {
        calc {
          PdfNames(a + b);
          [a[0]] + PdfNames(a[1..] + b);
          [a[0]] + (PdfNames(a[1..]) + PdfNames(b));
          ([a[0]] + PdfNames(a[1..])) + PdfNames(b);
        }
      }
    }
  }

  /** A listing of PDF files only is kept whole, and one without any is dropped. */
  lemma {:induction false} PdfNamesAllOrNothing(entries: seq<string>)
    ensures (forall k :: 0 <= k < |entries| ==> IsPdfName(entries[k])) ==> PdfNames(entries) == entries
    ensures (forall k :: 0 <= k < |entries| ==> !IsPdfName(entries[k])) ==> PdfNames(entries) == []
  {
    if |entries| > 0 {
      PdfNamesAllOrNothing(entries[1..]);
      if forall k :: 0 <= k < |entries| ==> IsPdfName(entries[k]) {
        assert forall k :: 0 <= k < |entries[1..]| ==> IsPdfName(entries[1..][k]) by {
          forall k | 0 <= k < |entries[1..]| ensures IsPdfName(entries[1..][k]) {
            assert entries[1..][k] == entries[k + 1];
          }
        }
      }
      if forall k :: 0 <= k < |entries| ==> !IsPdfName(entries[k]) {
        assert forall k :: 0 <= k < |entries[1..]| ==> !IsPdfName(entries[1..][k]) by {
          forall k | 0 <= k < |entries[1..]| ensures !IsPdfName(entries[1..][k]) {
            assert entries[1..][k] == entries[k + 1];
          }
        }
      }
    }
  }

  /** Each name joined to `dir`, in order. */
  function InDir(dir: seq<string>, names: seq<string>): (r: seq<FilePath>)
    ensures |r| == |names| && forall k :: 0 <= k < |names| ==> r[k] == FilePath(dir, names[k])
  {
    seq(|names|, k requires 0 <= k < |names| => FilePath(dir, names[k]))
  }

  /** The paths that exist, in order; `present` is the file system's answer. */
  function Existing(paths: seq<FilePath>, present: FilePath -> bool): (r: seq<FilePath>)
    ensures |r| <= |paths|
    ensures forall p :: p in r <==> p in paths && present(p)
  {
    if |paths| == 0 then []
    else if present(paths[0]) then [paths[0]] + Existing(paths[1..], present)
    else Existing(paths[1..], present)
  }

  /** Filtering two paths keeps those that exist, in order. */
  lemma ExistingPair(p: FilePath, q: FilePath, present: FilePath -> bool)
    ensures Existing([p, q], present) == (if present(p) then [p] else []) + (if present(q) then [q] else [])
  {
    assert [p, q][1..] == [q];
    assert [q][1..] == [];
  }

  /** The files to upload. `cwd` is `process.cwd()`; `listing` is the entries of
      `public/knowledge-base` when that directory exists; `present` is `fs.existsSync`. */
  function KnowledgeBaseFiles(cwd: seq<string>, listing: Option<seq<string>>, present: FilePath -> bool): seq<FilePath> {
    match listing
    case Some(entries) => InDir(cwd + ["public", "knowledge-base"], PdfNames(entries))
    case None => Existing(InDir(cwd + ["public"], PublicFiles), present)
  }

  /** With the directory present, exactly its PDF entries are kept, in listed order, as paths in that directory;
      with it absent, exactly the fixed files that exist, the Atomberg file first. */
  lemma KnowledgeBaseFilesSpec(cwd: seq<string>, listing: Option<seq<string>>, present: FilePath -> bool)
    ensures listing.Some? ==>
      var r := KnowledgeBaseFiles(cwd, listing, present);
      && |r| == |PdfNames(listing.value)|
      && (forall k :: 0 <= k < |r| ==> r[k] == FilePath(cwd + ["public", "knowledge-base"], PdfNames(listing.value)[k]))
      && (forall n :: FilePath(cwd + ["public", "knowledge-base"], n) in r <==> n in listing.value && IsPdfName(n))
    ensures listing.None? ==>
      var atomberg := FilePath(cwd + ["public"], PublicFiles[0]);
      var generic := FilePath(cwd + ["public"], PublicFiles[1]);
      KnowledgeBaseFiles(cwd, listing, present) ==
        (if present(atomberg) then [atomberg] else []) + (if present(generic) then [generic] else [])
  {
    if listing.Some? {
      var dir := cwd + ["public", "knowledge-base"];
      var names := PdfNames(listing.value);
      var r := KnowledgeBaseFiles(cwd, listing, present);
      forall n ensures FilePath(dir, n) in r <==> n in names {
        if FilePath(dir, n) in r {
          var k :| 0 <= k < |r| && r[k] == FilePath(dir, n);
          assert names[k] == n;
        }
        if n in names {
          var k :| 0 <= k < |names| && names[k] == n;
          assert r[k] == FilePath(dir, n);
        }
      }
    } else {
      var atomberg := FilePath(cwd + ["public"], PublicFiles[0]);
      var generic := FilePath(cwd + ["public"], PublicFiles[1]);
      assert InDir(cwd + ["public"], PublicFiles) == [atomberg, generic];
      ExistingPair(atomberg, generic, present);
    }
  }
}
