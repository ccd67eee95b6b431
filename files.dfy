/**
 * The file names of the slide pipeline: the frame images `slide_NNNN.png` the extractor
 * writes, the stale entries `prepareSlidesDir` clears from an output directory before a run,
 * and the choice of the downloaded video among the files yt-dlp left in its directory.
 * Directory listings and `stat` results are values; the file system itself is outside the model.
 */
module SlideFiles {
  import opened Wrappers
  import opened Text
  import opened Seqs

  // ---------------------------------------------------------------------------------------
  // Frame file names

  /** `String(n).padStart(4, '0')`. */
  function FrameNumber(n: nat): (r: string)
    ensures |r| >= 4
    ensures forall i :: 0 <= i < |r| ==> IsAsciiDigit(r[i])
  {
    PadStart(NatToString(n), 4, '0')
  }

  /** `slide_${String(n).padStart(4, '0')}.png`. */
  function SlideFileName(n: nat): (r: string)
    ensures StartsWith(r, "slide_") && EndsWith(r, ".png") && |r| >= 14
    ensures r[6..|r| - 4] == FrameNumber(n)
  {
    var r := "slide_" + FrameNumber(n) + ".png";
    assert r[6..|r| - 4] == FrameNumber(n);
    r
  }

  /** `path.join(dir, name)` for a directory and a plain file name. */
  function JoinPath(dir: string, name: string): string {
    dir + "/" + name
  }

  /** Within one directory, distinct names give distinct paths. */
  lemma JoinPathInjective(dir: string, a: string, b: string)
    requires a != b
    ensures JoinPath(dir, a) != JoinPath(dir, b)
  {
    assert JoinPath(dir, a)[|dir| + 1..] == a;
    assert JoinPath(dir, b)[|dir| + 1..] == b;
  }

  predicate AllDigits(s: string) {
    forall i :: 0 <= i < |s| ==> IsAsciiDigit(s[i])
  }

  /** The decimal value of a string of ASCII digits, leading zeros allowed. */
  function DigitsValue(s: string): nat
    requires AllDigits(s)
  {
    if s == [] then 0
    else
      assert IsAsciiDigit(s[|s| - 1]);
      DigitsValue(s[..|s| - 1]) * 10 + (s[|s| - 1] as int - '0' as int)
  }

  /** Reading back the decimal rendering of `n` gives `n`. */
  lemma {:induction false} NatToStringValue(n: nat)
    ensures DigitsValue(NatToString(n)) == n
  {
    if n >= 10 {
      NatToStringValue(n / 10);
      var s := NatToString(n);
      assert s[..|s| - 1] == NatToString(n / 10);
    }
  }

  /** Leading zeros do not change the value. */
  lemma {:induction false} ZerosValue(k: nat, s: string)
    requires AllDigits(s)
    ensures AllDigits(seq(k, _ => '0') + s)
    ensures DigitsValue(seq(k, _ => '0') + s) == DigitsValue(s)
    decreases k + |s|
  {
    var z := seq(k, _ => '0') + s;
    if s == [] {
      assert z == seq(k, _ => '0');
      if k > 0 {
        assert z[..|z| - 1] == seq(k - 1, _ => '0') + [];
        ZerosValue(k - 1, []);
      }
    } else {
      var front := s[..|s| - 1];
      assert z[..|z| - 1] == seq(k, _ => '0') + front;
      ZerosValue(k, front);
    }
  }

  /** The padded frame number reads back as the frame number. */
  lemma FrameNumberValue(n: nat)
    ensures DigitsValue(FrameNumber(n)) == n
  {
    NatToStringValue(n);
    var s := NatToString(n);
    if |s| < 4 {
      ZerosValue(4 - |s|, s);
      assert FrameNumber(n) == seq(4 - |s|, _ => '0') + s;
    }
  }

  /** Distinct slide numbers name distinct files, so no frame overwrites another. */
  lemma SlideFileNamesDistinct(m: nat, n: nat)
    requires m != n
    ensures SlideFileName(m) != SlideFileName(n)
  {
    FrameNumberValue(m);
    FrameNumberValue(n);
  }

  // ---------------------------------------------------------------------------------------
  // prepareSlidesDir

  /** An entry `prepareSlidesDir` deletes: a frame image or the `slides.json` record. */
  predicate IsStaleEntry(entry: string) {
    (StartsWith(entry, "slide_") && EndsWith(entry, ".png")) || entry == "slides.json"
  }

  /** The entries of a listing that `prepareSlidesDir` removes, in listing order. */
  function StaleEntries(entries: seq<string>): (r: seq<string>)
    ensures forall i :: 0 <= i < |r| ==> IsStaleEntry(r[i]) && r[i] in entries
    ensures forall e :: e in entries && IsStaleEntry(e) ==> e in r
  {
    Filter(entries, IsStaleEntry)
  }

  /** Every frame the extractor writes, and the record, is cleared by the next run. */
  lemma OwnFilesAreStale(n: nat)
    ensures IsStaleEntry(SlideFileName(n))
    ensures IsStaleEntry("slides.json")
  {
  }

  /** Other files in the directory survive, including look-alikes with another extension. */
  lemma ForeignFilesSurvive()
    ensures !IsStaleEntry("slide_0001.jpg")
    ensures !IsStaleEntry("slides.json.bak")
    ensures !IsStaleEntry("notes.png")
  {
    assert "slide_0001.jpg"[10..] != ".png";
    assert "notes.png"[..6][0] == 'n';
  }

  // ---------------------------------------------------------------------------------------
  // The downloaded file

  /** What `fs.stat` reports for a directory entry, if it succeeds. */
  datatype Stat = Stat(isFile: bool, size: nat)

  datatype DirEntry = DirEntry(name: string, stat: Option<Stat>)

  datatype Candidate = Candidate(filePath: string, size: nat)

  /** Partial downloads (`.part`) and yt-dlp's bookkeeping files (`.ytdl`) are never the video. */
  predicate IsPartial(name: string) {
    EndsWith(name, ".part") || EndsWith(name, ".ytdl")
  }

  /** An entry is a candidate when it is no partial download and stats as a regular file. */
  predicate IsCandidate(e: DirEntry) {
    !IsPartial(e.name) && e.stat.Some? && e.stat.value.isFile
  }

  /** The candidates of a listing, in listing order. */
  function Candidates(dir: string, entries: seq<DirEntry>): (r: seq<Candidate>)
    ensures |r| <= |entries|
  {
    if entries == [] then []
    else
      var rest := Candidates(dir, entries[1..]);
      if IsCandidate(entries[0]) then [Candidate(JoinPath(dir, entries[0].name), entries[0].stat.value.size)] + rest
      else rest
  }

  /** The comparator `b.size - a.size`: larger files first. */
  function DescendingSize(c: Candidate): real {
    -(c.size as real)
  }

  const NoVideoDownloaded := "yt-dlp completed but no video file was downloaded."

  /** The file `downloadYoutubeVideo` hands on: the first after sorting by descending size. */
  function ChosenDownload(dir: string, entries: seq<DirEntry>): Result<string, string> {
    var candidates := Candidates(dir, entries);
    if |candidates| == 0 then Failure(NoVideoDownloaded)
    else Success(SortBy(candidates, DescendingSize)[0].filePath)
  }

  /**
   * The candidate loop of `downloadYoutubeVideo`: skip partial files, keep what stats as a
   * file, then sort by size, largest first, and take the first.
   */
  method ChooseDownloadedFile(dir: string, entries: seq<DirEntry>) returns (r: Result<string, string>)
    ensures r == ChosenDownload(dir, entries)
  {
    var candidates: seq<Candidate> := [];
    for i := 0 to |entries|
      invariant candidates + Candidates(dir, entries[i..]) == Candidates(dir, entries)
    {
      var entry := entries[i];
      assert entries[i..][1..] == entries[i + 1..];
      assert Candidates(dir, entries[i..]) ==
        if IsCandidate(entry) then [Candidate(JoinPath(dir, entry.name), entry.stat.value.size)] + Candidates(dir, entries[i + 1..])
        else Candidates(dir, entries[i + 1..]);
      if IsPartial(entry.name) {
        continue;
      }
      var filePath := JoinPath(dir, entry.name);
      if entry.stat.Some? && entry.stat.value.isFile {
        candidates := candidates + [Candidate(filePath, entry.stat.value.size)];
      }
    }
    assert entries[|entries|..] == [];
    assert candidates == Candidates(dir, entries);
    if |candidates| == 0 {
      return Failure(NoVideoDownloaded);
    }
    var sorted := SortBy(candidates, DescendingSize);
    r := Success(sorted[0].filePath);
  }

  /** Every candidate came from a listed non-partial regular file. */
  lemma {:induction false} CandidatesFromEntries(dir: string, entries: seq<DirEntry>, c: Candidate)
    requires c in Candidates(dir, entries)
    ensures exists e :: e in entries && IsCandidate(e) && c == Candidate(JoinPath(dir, e.name), e.stat.value.size)
  {
    var e := entries[0];
    if !IsCandidate(e) || c != Candidate(JoinPath(dir, e.name), e.stat.value.size) {
      CandidatesFromEntries(dir, entries[1..], c);
      var f :| f in entries[1..] && IsCandidate(f) && c == Candidate(JoinPath(dir, f.name), f.stat.value.size);
      assert f in entries;
    }
  }

  /** Every listed non-partial regular file is a candidate. */
  lemma {:induction false} EntriesAreCandidates(dir: string, entries: seq<DirEntry>, e: DirEntry)
    requires e in entries && IsCandidate(e)
    ensures Candidate(JoinPath(dir, e.name), e.stat.value.size) in Candidates(dir, entries)
  {
    if e != entries[0] {
      EntriesAreCandidates(dir, entries[1..], e);
    }
  }

  /**
   * The download fails exactly when no entry is a non-partial regular file; otherwise the
   * chosen path is such a file and no other such file is larger.
   */
  lemma ChosenDownloadIsLargest(dir: string, entries: seq<DirEntry>)
    ensures ChosenDownload(dir, entries).Failure? <==> forall e :: e in entries ==> !IsCandidate(e)
    ensures ChosenDownload(dir, entries).Failure? ==> ChosenDownload(dir, entries).error == NoVideoDownloaded
    ensures ChosenDownload(dir, entries).Success? ==>
              exists e :: e in entries && IsCandidate(e)
                          && ChosenDownload(dir, entries).value == JoinPath(dir, e.name)
                          && forall f :: f in entries && IsCandidate(f) ==> f.stat.value.size <= e.stat.value.size
  {
    var candidates := Candidates(dir, entries);
    if |candidates| == 0 {
      forall e | e in entries ensures !IsCandidate(e) {
        if IsCandidate(e) {
          EntriesAreCandidates(dir, entries, e);
        }
      }
    } else {
      assert candidates[0] in candidates;
      CandidatesFromEntries(dir, entries, candidates[0]);
      var sorted := SortBy(candidates, DescendingSize);
      var best := sorted[0];
      assert best in multiset(sorted);
      assert best in candidates;
      CandidatesFromEntries(dir, entries, best);
      var e :| e in entries && IsCandidate(e) && best == Candidate(JoinPath(dir, e.name), e.stat.value.size);
      forall f | f in entries && IsCandidate(f) ensures f.stat.value.size <= e.stat.value.size {
        var c := Candidate(JoinPath(dir, f.name), f.stat.value.size);
        EntriesAreCandidates(dir, entries, f);
        assert c in multiset(candidates);
        assert c in multiset(sorted);
        var k :| 0 <= k < |sorted| && sorted[k] == c;
        if k > 0 {
          assert DescendingSize(sorted[0]) <= DescendingSize(sorted[k]);
        }
      }
    }
  }

  /** Candidate `j` is as large as every candidate and strictly larger than every earlier one. */
  ghost predicate FirstLargest(candidates: seq<Candidate>, j: int) {
    && 0 <= j < |candidates|
    && forall k :: 0 <= k < |candidates| ==>
         candidates[k].size <= candidates[j].size && (k < j ==> candidates[k].size < candidates[j].size)
  }

  /**
   * The sort is stable, so among candidates of the largest size the one listed first wins:
   * the chosen file is as large as every candidate and strictly larger than every earlier one.
   */
  lemma ChosenDownloadIsFirstLargest(dir: string, entries: seq<DirEntry>)
    ensures ChosenDownload(dir, entries).Success? ==>
              exists j :: FirstLargest(Candidates(dir, entries), j)
                          && ChosenDownload(dir, entries).value == Candidates(dir, entries)[j].filePath
  {
    var candidates := Candidates(dir, entries);
    if |candidates| > 0 {
      var j := SortByHead(candidates, DescendingSize);
      forall k | 0 <= k < |candidates|
        ensures candidates[k].size <= candidates[j].size && (k < j ==> candidates[k].size < candidates[j].size)
      {
        assert DescendingSize(candidates[j]) <= DescendingSize(candidates[k]);
      }
      assert ChosenDownload(dir, entries).value == candidates[j].filePath;
      assert FirstLargest(candidates, j);
    }
  }
}
