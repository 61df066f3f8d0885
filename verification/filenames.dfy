/** File-name handling used by the blast-folder scan: `os.path.splitext`
    on a single path component, `str.lower()`, and the classification of a
    file into the video, table or document bucket by its extension. */
module FileNames {
  import opened Json

  /** `s.rfind(c, 0, end)`: the index of the last occurrence of `c` before
      `end`, or -1. */
  function RFind(s: string, c: char, end: nat): (i: int)
    requires end <= |s|
    ensures -1 <= i < end
    ensures i >= 0 ==> s[i] == c
    ensures forall j :: i < j < end ==> s[j] != c
  {
    if end == 0 then -1
    else if s[end - 1] == c then end - 1
    else RFind(s, c, end - 1)
  }

  /** Some character of `s` before `end` is not a dot. */
  predicate HasNonDot(s: string, end: nat)
  {
    exists k :: 0 <= k < end && k < |s| && s[k] != '.'
  }

  /** The name has a dot somewhere after a character that is not a dot,
      which is when `splitext` finds an extension. */
  predicate HasExtension(name: string)
  {
    exists k, j :: 0 <= k < j < |name| && name[k] != '.' && name[j] == '.'
  }

  /** `os.path.splitext(name)` for a name without a separator: the
      extension runs from the last dot, unless everything before that dot is
      a dot too (a leading-dot name such as ".mp4" or "..mp4" has none). */
  function SplitExt(name: string): (r: (string, string))
    ensures r.0 + r.1 == name
    ensures r.1 != "" <==> HasExtension(name)
    ensures r.1 != "" ==> r.1[0] == '.' && '.' !in r.1[1..] && HasNonDot(r.0, |r.0|)
  {
    var dot := RFind(name, '.', |name|);
    if dot >= 0 && HasNonDot(name, dot) then
      assert name[..dot] + name[dot..] == name;
      (name[..dot], name[dot..])
    else
      assert !HasExtension(name);
      (name, "")
  }

  /** `str.lower()` on one character, for the ASCII letters. */
  function LowerChar(c: char): char
  {
    if 'A' <= c <= 'Z' then (c as int - 'A' as int + 'a' as int) as char else c
  }

  /** `str.lower()`, character by character. */
  function Lower(s: string): (r: string)
    ensures |r| == |s|
    ensures forall i :: 0 <= i < |s| ==> r[i] == LowerChar(s[i])
    ensures forall i :: 0 <= i < |r| ==> !('A' <= r[i] <= 'Z')
  {
    seq(|s|, i requires 0 <= i < |s| => LowerChar(s[i]))
  }

  /** Lower-casing twice is lower-casing once. */
  lemma LowerIdempotent(s: string)
    ensures Lower(Lower(s)) == Lower(s)
  {
    var l := Lower(s);
    assert forall i :: 0 <= i < |l| ==> LowerChar(l[i]) == l[i];
  }

  /** The three buckets of a blast folder. */
  datatype Kind = Video | Table | Document

  /** The lower-case extension that puts a file in the bucket. */
  function Suffix(k: Kind): string
  {
    match k
    case Video => ".mp4"
    case Table => ".csv"
    case Document => ".pdf"
  }

  /** The bucket of a file name: its lower-cased `splitext` extension
      compared with ".mp4", ".csv" and ".pdf"; anything else is ignored. */
  function Classify(name: string): (r: Option<Kind>)
    ensures r.Some? ==> Lower(SplitExt(name).1) == Suffix(r.value)
    ensures r.None? ==> forall k :: Lower(SplitExt(name).1) != Suffix(k)
  {
    var ext := Lower(SplitExt(name).1);
    if ext == ".mp4" then Some(Video)
    else if ext == ".csv" then Some(Table)
    else if ext == ".pdf" then Some(Document)
    else None
  }

  /** Reference meaning of the classification, without `splitext`: a file
      is in bucket `k` exactly when its last four characters are `k`'s suffix
      in any letter case and something other than a dot comes before them. */
  lemma ClassifyMeaning(name: string, k: Kind)
    ensures Classify(name) == Some(k) <==>
      && |name| > 4
      && Lower(name[|name| - 4..]) == Suffix(k)
      && HasNonDot(name, |name| - 4)
  {
    if Classify(name) == Some(k) {
      ClassifiedHasSuffix(name, k);
    }
    if |name| > 4 && Lower(name[|name| - 4..]) == Suffix(k) && HasNonDot(name, |name| - 4) {
      SuffixIsClassified(name, k);
    }
  }

  /** The forward half of `ClassifyMeaning`. */
  lemma ClassifiedHasSuffix(name: string, k: Kind)
    requires Classify(name) == Some(k)
    ensures |name| > 4 && Lower(name[|name| - 4..]) == Suffix(k) && HasNonDot(name, |name| - 4)
  {
    var (stem, ext) := SplitExt(name);
    assert |Lower(ext)| == 4;
    assert stem + ext == name;
    assert name[|name| - 4..] == ext;
    assert name[..|name| - 4] == stem;
  }

  /** The backward half of `ClassifyMeaning`: the suffix's dot is the last
      dot, so it is where `splitext` cuts. */
  lemma SuffixIsClassified(name: string, k: Kind)
    requires |name| > 4 && Lower(name[|name| - 4..]) == Suffix(k) && HasNonDot(name, |name| - 4)
    ensures Classify(name) == Some(k)
  {
    var n := |name|;
    var tail := name[n - 4..];
    assert LowerChar(tail[0]) == '.';
    assert name[n - 4] == '.';
    forall j | n - 4 < j < n
      ensures name[j] != '.'
    {
      assert LowerChar(tail[j - (n - 4)]) != '.';
    }
    assert RFind(name, '.', n) == n - 4;
    assert SplitExt(name).1 == tail;
  }

  /** An upper-case extension is recognised. */
  lemma UpperCaseExtension()
    ensures Classify("X.MP4") == Some(Video)
  {
    ClassifyMeaning("X.MP4", Video);
    assert "X.MP4"[0] != '.';
  }

  /** Only the suffix after the last dot counts. */
  lemma OnlyLastSuffixCounts(k: Kind)
    ensures Classify("a.mp4.bak") != Some(k)
  {
    ClassifyMeaning("a.mp4.bak", k);
    assert "a.mp4.bak"[5..] == ".bak";
  }

  /** A name made of leading dots and a suffix has no extension. */
  lemma LeadingDotIsNoExtension(k: Kind)
    ensures Classify(".mp4") != Some(k)
    ensures Classify("..pdf") != Some(k)
  {
    ClassifyMeaning(".mp4", k);
    ClassifyMeaning("..pdf", k);
  }
  /** A stem holding some character other than a dot, followed by a
      bucket's suffix, is classified into that bucket. */
  lemma ClassifyWithSuffix(stem: string, k: Kind)
    requires HasNonDot(stem, |stem|)
    ensures Classify(stem + Suffix(k)) == Some(k)
  {
    var name := stem + Suffix(k);
    assert name[|name| - 4..] == Suffix(k);
    assert Lower(Suffix(k)) == Suffix(k);
    var j :| 0 <= j < |stem| && stem[j] != '.';
    assert name[j] == stem[j];
    ClassifyMeaning(name, k);
  }

  /** A one-character stem other than a dot followed by a bucket's suffix,
      as in "a.mp4", is classified into that bucket. */
  lemma ShortName(name: string, k: Kind)
    requires |name| == 5 && name[0] != '.' && name[1..] == Suffix(k)
    ensures Classify(name) == Some(k)
  {
    assert name == [name[0]] + Suffix(k);
    assert [name[0]][0] != '.';
    ClassifyWithSuffix([name[0]], k);
  }
}
