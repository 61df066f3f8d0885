/** The `/videos` route without its I/O: the two `os.listdir` levels and
    `os.path.isdir` become a tree of entries, `url_for('static', ...)`
    becomes concatenation onto a static prefix, and the result is the list
    of blasts handed to the template.

    The folder logic is stated for any file classifier `cls`; the route
    itself, `ListVideos`, runs it with `FileNames.Classify`. Keeping the
    classifier abstract here lets the proofs about folders and listing
    order ignore how extensions are read. */
module BlastScanner {
  import opened Json
  import opened FileNames

  /** A directory entry as `os.listdir` and `os.path.isdir` report it; a
      directory carries its own listing. */
  datatype Entry = File(name: string) | Dir(name: string, contents: seq<Entry>)

  /** One row of the page: the folder and the URLs of its three files. */
  datatype Blast = Blast(folder: string, videoUrl: string, csvUrl: string, pdfUrl: string)

  /** The three variables of the inner loop. */
  datatype Buckets = Buckets(video: Option<string>, csv: Option<string>, pdf: Option<string>)

  const NoFiles := Buckets(None, None, None)

  type Classifier = string -> Option<Kind>

  function Slot(b: Buckets, k: Kind): Option<string>
  {
    match k
    case Video => b.video
    case Table => b.csv
    case Document => b.pdf
  }

  /** `e` is a file, not a subdirectory, and `cls` puts it in `k`. */
  predicate IsFileOfKind(e: Entry, k: Kind, cls: Classifier)
  {
    e.File? && cls(e.name) == Some(k)
  }

  /** The first `end` entries hold at least one file of kind `k`. */
  predicate HasKind(es: seq<Entry>, k: Kind, end: nat, cls: Classifier)
    requires end <= |es|
  {
    exists i :: 0 <= i < end && IsFileOfKind(es[i], k, cls)
  }

  /** Index of the last file of kind `k` among the first `end` entries, or
      -1 when there is none. */
  function LastIndex(es: seq<Entry>, k: Kind, end: nat, cls: Classifier): (i: int)
    requires end <= |es|
    ensures -1 <= i < end
    ensures i >= 0 ==> IsFileOfKind(es[i], k, cls)
    ensures forall j :: i < j < end ==> !IsFileOfKind(es[j], k, cls)
  {
    if end == 0 then -1
    else if IsFileOfKind(es[end - 1], k, cls) then end - 1
    else LastIndex(es, k, end - 1, cls)
  }

  /** Reference choice for bucket `k` after the first `end` entries: the
      name of the last file of that kind, or None when there is none. */
  function Chosen(es: seq<Entry>, k: Kind, end: nat, cls: Classifier): (r: Option<string>)
    requires end <= |es|
    ensures r.Some? <==> HasKind(es, k, end, cls)
  {
    var i := LastIndex(es, k, end, cls);
    if i < 0 then None else Some(es[i].name)
  }

  /** One iteration of the inner loop: skip a subdirectory, otherwise
      overwrite the bucket the file's extension selects, if any. */
  function Step(b: Buckets, e: Entry, cls: Classifier): (r: Buckets)
    ensures forall k :: Slot(r, k) == if IsFileOfKind(e, k, cls) then Some(e.name) else Slot(b, k)
  {
    if e.Dir? then b
    else match cls(e.name)
      case None => b
      case Some(Video) => b.(video := Some(e.name))
      case Some(Table) => b.(csv := Some(e.name))
      case Some(Document) => b.(pdf := Some(e.name))
  }

  /** The inner loop over one folder's listing: every bucket ends up
      holding the last file of its kind. */
  method ScanFolder(entries: seq<Entry>, cls: Classifier) returns (b: Buckets)
    ensures forall k :: Slot(b, k) == Chosen(entries, k, |entries|, cls)
  {
    b := NoFiles;
    var i := 0;
    while i < |entries|
      invariant 0 <= i <= |entries|
      invariant forall k :: Slot(b, k) == Chosen(entries, k, i, cls)
    {
      b := Step(b, entries[i], cls);
      i := i + 1;
    }
  }

  /** `url_for('static', filename=f'blasts/{folder}/{file}')`, with the
      static URL path as a parameter and without percent-encoding. */
  function Url(prefix: string, folder: string, file: string): string
  {
    prefix + "blasts/" + folder + "/" + file
  }

  /** Where each part sits in a URL. */
  lemma UrlParts(prefix: string, folder: string, file: string)
    ensures var r := Url(prefix, folder, file);
      && |r| == |prefix| + 7 + |folder| + 1 + |file|
      && r[..|prefix|] == prefix && r[|prefix|..|prefix| + 7] == "blasts/"
      && r[|prefix| + 7..] == folder + "/" + file
  {
  }

  /** A URL names its folder and file unambiguously: folder names, being
      single path components, contain no '/', so the first '/' after the
      "blasts/" part ends the folder. */
  lemma UrlDeterminesFile(prefix: string, f1: string, x1: string, f2: string, x2: string)
    requires '/' !in f1 && '/' !in f2
    requires Url(prefix, f1, x1) == Url(prefix, f2, x2)
    ensures f1 == f2 && x1 == x2
  {
    var s1, s2 := f1 + "/" + x1, f2 + "/" + x2;
    assert s1 == s2 by {
      UrlParts(prefix, f1, x1);
      UrlParts(prefix, f2, x2);
    }
    // Each side's '/' lies outside the other side's folder.
    assert s2[|f2|] == '/' && s1[|f1|] == '/';
    assert forall i :: 0 <= i < |f1| ==> s1[i] == f1[i];
    assert forall i :: 0 <= i < |f2| ==> s2[i] == f2[i];
    assert |f1| == |f2|;
    assert f1 == s1[..|f1|] && f2 == s2[..|f2|];
    assert x1 == s1[|f1| + 1..] && x2 == s2[|f2| + 1..];
  }

  /** What one root entry contributes: a directory with a file in each of
      the three buckets gives one blast pointing at the chosen files;
      anything else gives nothing. */
  function FolderBlast(e: Entry, prefix: string, cls: Classifier): (r: Option<Blast>)
    ensures r.Some? <==> e.Dir? && forall k :: HasKind(e.contents, k, |e.contents|, cls)
    ensures r.Some? ==>
      && r.value.folder == e.name
      && r.value.videoUrl == Url(prefix, e.name, Chosen(e.contents, Video, |e.contents|, cls).value)
      && r.value.csvUrl == Url(prefix, e.name, Chosen(e.contents, Table, |e.contents|, cls).value)
      && r.value.pdfUrl == Url(prefix, e.name, Chosen(e.contents, Document, |e.contents|, cls).value)
  {
    if e.File? then None
    else
      var es := e.contents;
      var v, c, p := Chosen(es, Video, |es|, cls), Chosen(es, Table, |es|, cls), Chosen(es, Document, |es|, cls);
      if v.Some? && c.Some? && p.Some? then
        assert forall k :: HasKind(es, k, |es|, cls) by {
          forall k
            ensures HasKind(es, k, |es|, cls)
          {
            if k == Video {
              assert v.Some?;
            } else if k == Table {
              assert c.Some?;
            } else {
              assert p.Some?;
            }
          }
        }
        Some(Blast(e.name, Url(prefix, e.name, v.value), Url(prefix, e.name, c.value), Url(prefix, e.name, p.value)))
      else
        assert !HasKind(es, Video, |es|, cls) || !HasKind(es, Table, |es|, cls) || !HasKind(es, Document, |es|, cls);
        None
  }

  /** Reference result of the route: the contributions of the root entries,
      in listing order. */
  function Blasts(root: seq<Entry>, prefix: string, cls: Classifier): seq<Blast>
    decreases |root|
  {
    if |root| == 0 then []
    else
      var last := FolderBlast(root[|root| - 1], prefix, cls);
      Blasts(root[..|root| - 1], prefix, cls) + (if last.Some? then [last.value] else [])
  }

  /** The outer loop over the root listing: keep the directories, scan
      each, and record the folders where all three buckets are filled. */
  method ScanRoot(root: seq<Entry>, prefix: string, cls: Classifier) returns (blasts: seq<Blast>)
    ensures blasts == Blasts(root, prefix, cls)
  {
    blasts := [];
    var i := 0;
    while i < |root|
      invariant 0 <= i <= |root|
      invariant blasts == Blasts(root[..i], prefix, cls)
    {
      assert root[..i + 1][..i] == root[..i];
      var e := root[i];
      if e.Dir? {
        var b := ScanFolder(e.contents, cls);
        if b.video.Some? && b.csv.Some? && b.pdf.Some? {
          assert Slot(b, Video).Some? && Slot(b, Table).Some? && Slot(b, Document).Some?;
          blasts := blasts + [Blast(e.name, Url(prefix, e.name, b.video.value),
                                    Url(prefix, e.name, b.csv.value), Url(prefix, e.name, b.pdf.value))];
        } else {
          assert Slot(b, Video).None? || Slot(b, Table).None? || Slot(b, Document).None?;
        }
      }
      i := i + 1;
    }
    assert root[..i] == root;
  }

  /** `list_videos`: the scan of the blasts directory with files classified
      by their lower-cased extension. */
  method ListVideos(root: seq<Entry>, prefix: string) returns (blasts: seq<Blast>)
    ensures blasts == Blasts(root, prefix, Classify)
  {
    blasts := ScanRoot(root, prefix, Classify);
  }

  /** The scan is compositional: the result for two listings one after the
      other is the result for the first followed by the result for the
      second. Hence the output follows folder listing order. */
  lemma {:induction false} BlastsAppend(a: seq<Entry>, b: seq<Entry>, prefix: string, cls: Classifier)
    ensures Blasts(a + b, prefix, cls) == Blasts(a, prefix, cls) + Blasts(b, prefix, cls)
    decreases |b|
  {
    if |b| > 0 {
      var b' := b[..|b| - 1];
      var last := FolderBlast(b[|b| - 1], prefix, cls);
      var tail := if last.Some? then [last.value] else [];
      assert (a + b)[..|a + b| - 1] == a + b';
      assert (a + b)[|a + b| - 1] == b[|b| - 1];
      assert Blasts(a + b, prefix, cls) == Blasts(a + b', prefix, cls) + tail;
      BlastsAppend(a, b', prefix, cls);
      assert Blasts(b, prefix, cls) == Blasts(b', prefix, cls) + tail;
      assert (Blasts(a, prefix, cls) + Blasts(b', prefix, cls)) + tail
          == Blasts(a, prefix, cls) + (Blasts(b', prefix, cls) + tail);
    } else {
      assert a + b == a;
    }
  }

  /** At most one blast per folder, and none for a plain file of the root. */
  lemma SingleEntry(e: Entry, prefix: string, cls: Classifier)
    ensures |Blasts([e], prefix, cls)| <= 1
    ensures e.File? ==> Blasts([e], prefix, cls) == []
  {
    assert [e][..0] == [];
  }

  /** A blast is in the result exactly when some root entry contributes it. */
  lemma {:induction false} BlastsMembers(root: seq<Entry>, prefix: string, cls: Classifier, b: Blast)
    ensures b in Blasts(root, prefix, cls) <==>
      exists i :: 0 <= i < |root| && FolderBlast(root[i], prefix, cls) == Some(b)
    decreases |root|
  {
    if |root| > 0 {
      var init := root[..|root| - 1];
      BlastsMembers(init, prefix, cls, b);
      if exists i :: 0 <= i < |init| && FolderBlast(init[i], prefix, cls) == Some(b) {
        var i :| 0 <= i < |init| && FolderBlast(init[i], prefix, cls) == Some(b);
        assert root[i] == init[i];
      }
      if exists i :: 0 <= i < |root| && FolderBlast(root[i], prefix, cls) == Some(b) {
        var i :| 0 <= i < |root| && FolderBlast(root[i], prefix, cls) == Some(b);
        if i < |root| - 1 {
          assert init[i] == root[i];
        }
      }
    }
  }

  /** No more blasts than root entries. */
  lemma {:induction false} BlastsBounded(root: seq<Entry>, prefix: string, cls: Classifier)
    ensures |Blasts(root, prefix, cls)| <= |root|
    decreases |root|
  {
    if |root| > 0 {
      BlastsBounded(root[..|root| - 1], prefix, cls);
    }
  }
  /** Folder A holds all three kinds, folder B lacks a pdf, and a loose
      video sits in the root: only A is listed, for any classifier that
      reads these names the way `Classify` does. */
  lemma TwoFolderScenarioFor(prefix: string, cls: Classifier)
    requires cls("a.mp4") == cls("b.mp4") == cls("x.mp4") == Some(Video)
    requires cls("a.csv") == cls("b.csv") == Some(Table)
    requires cls("a.pdf") == Some(Document)
    ensures
      var a := Dir("A", [File("a.mp4"), File("a.csv"), File("a.pdf")]);
      var b := Dir("B", [File("b.mp4"), File("b.csv")]);
      Blasts([a, b, File("x.mp4")], prefix, cls)
        == [Blast("A", Url(prefix, "A", "a.mp4"), Url(prefix, "A", "a.csv"), Url(prefix, "A", "a.pdf"))]
  {
    var a := Dir("A", [File("a.mp4"), File("a.csv"), File("a.pdf")]);
    var b := Dir("B", [File("b.mp4"), File("b.csv")]);
    assert !HasKind(b.contents, Document, 2, cls) by {
      assert !IsFileOfKind(b.contents[0], Document, cls);
      assert !IsFileOfKind(b.contents[1], Document, cls);
    }
    assert Chosen(a.contents, Video, 3, cls) == Some("a.mp4");
    assert Chosen(a.contents, Table, 3, cls) == Some("a.csv");
    assert Chosen(a.contents, Document, 3, cls) == Some("a.pdf");
    var blastA := Blast("A", Url(prefix, "A", "a.mp4"), Url(prefix, "A", "a.csv"), Url(prefix, "A", "a.pdf"));
    assert FolderBlast(a, prefix, cls) == Some(blastA);
    assert FolderBlast(b, prefix, cls) == None;
    assert FolderBlast(File("x.mp4"), prefix, cls) == None;
    var root := [a, b, File("x.mp4")];
    assert root[..2] == [a, b];
    assert [a, b][..1] == [a];
    assert [a][..0] == [];
    assert Blasts([a], prefix, cls) == [blastA];
    assert Blasts([a, b], prefix, cls) == [blastA];
  }

  /** The same scenario with the route's own classifier. */
  lemma TwoFolderScenario(prefix: string)
    ensures
      var a := Dir("A", [File("a.mp4"), File("a.csv"), File("a.pdf")]);
      var b := Dir("B", [File("b.mp4"), File("b.csv")]);
      Blasts([a, b, File("x.mp4")], prefix, Classify)
        == [Blast("A", Url(prefix, "A", "a.mp4"), Url(prefix, "A", "a.csv"), Url(prefix, "A", "a.pdf"))]
  {
    ScenarioNames();
    TwoFolderScenarioFor(prefix, Classify);
  }

  /** Two videos in one folder: exactly one is chosen, the later in listing
      order. */
  lemma LastVideoWinsFor(prefix: string, cls: Classifier)
    requires cls("x.mp4") == cls("y.mp4") == Some(Video)
    requires cls("r.csv") == Some(Table) && cls("r.pdf") == Some(Document)
    ensures
      var f := Dir("F", [File("x.mp4"), File("y.mp4"), File("r.csv"), File("r.pdf")]);
      FolderBlast(f, prefix, cls)
        == Some(Blast("F", Url(prefix, "F", "y.mp4"), Url(prefix, "F", "r.csv"), Url(prefix, "F", "r.pdf")))
  {
    var f := Dir("F", [File("x.mp4"), File("y.mp4"), File("r.csv"), File("r.pdf")]);
    assert Chosen(f.contents, Video, 4, cls) == Some("y.mp4");
    assert Chosen(f.contents, Table, 4, cls) == Some("r.csv");
    assert Chosen(f.contents, Document, 4, cls) == Some("r.pdf");
  }

  /** The same with the route's own classifier. */
  lemma LastVideoWins(prefix: string)
    ensures
      var f := Dir("F", [File("x.mp4"), File("y.mp4"), File("r.csv"), File("r.pdf")]);
      FolderBlast(f, prefix, Classify)
        == Some(Blast("F", Url(prefix, "F", "y.mp4"), Url(prefix, "F", "r.csv"), Url(prefix, "F", "r.pdf")))
  {
    ScenarioNames();
    LastVideoWinsFor(prefix, Classify);
  }

  /** How `Classify` reads the file names of the scenarios. */
  lemma ScenarioNames()
    ensures Classify("a.mp4") == Classify("b.mp4") == Classify("x.mp4") == Classify("y.mp4") == Some(Video)
    ensures Classify("a.csv") == Classify("b.csv") == Classify("r.csv") == Some(Table)
    ensures Classify("a.pdf") == Classify("r.pdf") == Some(Document)
  {
    ShortName("a.mp4", Video);
    ShortName("b.mp4", Video);
    ShortName("x.mp4", Video);
    ShortName("y.mp4", Video);
    ShortName("a.csv", Table);
    ShortName("b.csv", Table);
    ShortName("r.csv", Table);
    ShortName("a.pdf", Document);
    ShortName("r.pdf", Document);
  }
}
