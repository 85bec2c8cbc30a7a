/**
 * File-name helpers of the browser: hidden-name test, splitting a listing
 * into videos and images, sanitising a name for the thumbnail cache, and the
 * unit choice of the human-readable size.
 */
module FileUtils {
  import opened Text
  import Paths

  /**
   * One entry of a directory listing: its path, the final component the
   * listing reports as its name, and whether it is a regular file or a
   * directory.
   */
  datatype DirEntry = DirEntry(path: string, name: string, isFile: bool, isDir: bool)
  {
    /** `path.suffix.lower()`. */
    function Ext(): string { Lower(Paths.Suffix(name)) }
  }

  /** Unix hidden-file rule: the name starts with a dot. */
  function IsHidden(name: string): (hidden: bool)
    ensures hidden <==> |name| > 0 && name[0] == '.'
  {
    StartsWith(name, ".")
  }

  // ------------------------------------------------------------ media split

  predicate IsVideoFile(f: DirEntry, videoExts: set<string>)
  {
    f.isFile && f.Ext() in videoExts
  }

  /** Video is checked first, so an extension in both sets counts as video. */
  predicate IsImageFile(f: DirEntry, videoExts: set<string>, imageExts: set<string>)
  {
    f.isFile && f.Ext() !in videoExts && f.Ext() in imageExts
  }

  /** The video files of a listing, in listing order. */
  function Videos(files: seq<DirEntry>, videoExts: set<string>): (r: seq<DirEntry>)
    ensures |r| <= |files|
    ensures forall x :: x in r <==> x in files && IsVideoFile(x, videoExts)
  {
    if files == [] then []
    else (if IsVideoFile(files[0], videoExts) then [files[0]] else []) + Videos(files[1..], videoExts)
  }

  /** The image files of a listing, in listing order. */
  function Images(files: seq<DirEntry>, videoExts: set<string>, imageExts: set<string>): (r: seq<DirEntry>)
    ensures |r| <= |files|
    ensures forall x :: x in r <==> x in files && IsImageFile(x, videoExts, imageExts)
  {
    if files == [] then []
    else
      (if IsImageFile(files[0], videoExts, imageExts) then [files[0]] else [])
      + Images(files[1..], videoExts, imageExts)
  }

  lemma {:induction false} VideosSnoc(xs: seq<DirEntry>, x: DirEntry, videoExts: set<string>)
    ensures Videos(xs + [x], videoExts) == Videos(xs, videoExts) + (if IsVideoFile(x, videoExts) then [x] else [])
  {
    if xs != [] {
      assert (xs + [x])[1..] == xs[1..] + [x];
      VideosSnoc(xs[1..], x, videoExts);
    }
  }

  lemma {:induction false} ImagesSnoc(xs: seq<DirEntry>, x: DirEntry, videoExts: set<string>, imageExts: set<string>)
    ensures Images(xs + [x], videoExts, imageExts)
         == Images(xs, videoExts, imageExts) + (if IsImageFile(x, videoExts, imageExts) then [x] else [])
  {
    if xs != [] {
      assert (xs + [x])[1..] == xs[1..] + [x];
      ImagesSnoc(xs[1..], x, videoExts, imageExts);
    }
  }

  /**
   * `filter_media_files`: walks the listing once, dropping non-files and
   * unknown extensions, and appends each file to the video or the image list.
   */
  method FilterMediaFiles(files: seq<DirEntry>, videoExts: set<string>, imageExts: set<string>)
    returns (videos: seq<DirEntry>, images: seq<DirEntry>)
    ensures videos == Videos(files, videoExts)
    ensures images == Images(files, videoExts, imageExts)
  {
    videos, images := [], [];
    var i := 0;
    while i < |files|
      invariant 0 <= i <= |files|
      invariant videos == Videos(files[..i], videoExts)
      invariant images == Images(files[..i], videoExts, imageExts)
    {
      var f := files[i];
      VideosSnoc(files[..i], f, videoExts);
      ImagesSnoc(files[..i], f, videoExts, imageExts);
      assert files[..i + 1] == files[..i] + [f];
      if f.isFile {
        var ext := f.Ext();
        if ext in videoExts {
          videos := videos + [f];
        } else if ext in imageExts {
          images := images + [f];
        }
      }
      i := i + 1;
    }
    assert files[..i] == files;
  }

  /** No file lands in both lists, and every regular file with a known extension lands in one. */
  lemma MediaSplitIsPartition(files: seq<DirEntry>, videoExts: set<string>, imageExts: set<string>)
    ensures forall x :: x in Videos(files, videoExts) ==> x !in Images(files, videoExts, imageExts)
    ensures forall x :: x in files && x.isFile && x.Ext() in videoExts + imageExts ==>
              x in Videos(files, videoExts) || x in Images(files, videoExts, imageExts)
  {
  }

  // ----------------------------------------------------------- safe_filename

  /** The characters `safe_filename` replaces, in the order it replaces them. */
  function InvalidChars(): string { "<>:\"/\\|?*" }

  predicate IsTrimmed(c: char) { c == ' ' || c == '.' }

  /** `s.replace(c, rep)` for one character `c`. */
  function ReplaceChar(s: string, c: char, rep: string): (r: string)
    ensures c !in rep ==> c !in r
    ensures forall d :: d in r ==> d in s || d in rep
    ensures forall d :: d in s && d != c ==> d in r
    ensures c !in s ==> r == s
  {
    if s == [] then []
    else (if s[0] == c then rep else [s[0]]) + ReplaceChar(s[1..], c, rep)
  }

  /** The replacements of `chars`, applied one after the other from the first. */
  function ReplaceAll(s: string, chars: string, rep: string): (r: string)
    decreases |chars|
  {
    if chars == [] then s else ReplaceAll(ReplaceChar(s, chars[0], rep), chars[1..], rep)
  }

  /** After the replacements: `strip(' .')`, then `'unnamed'` for an empty result. */
  function Finish(s: string): (r: string)
    ensures r != []
    ensures !IsTrimmed(r[0]) && !IsTrimmed(r[|r| - 1])
  {
    var t := StripBy(s, IsTrimmed);
    if t == [] then "unnamed" else t
  }

  /** One `str.replace` per character of `chars`, in order. */
  method ReplaceEach(s: string, chars: string, rep: string) returns (r: string)
    ensures r == ReplaceAll(s, chars, rep)
    ensures (forall c :: c in chars ==> c !in rep) ==> forall c :: c in chars ==> c !in r
  {
    r := s;
    var k := 0;
    while k < |chars|
      invariant 0 <= k <= |chars|
      invariant ReplaceAll(r, chars[k..], rep) == ReplaceAll(s, chars, rep)
      invariant (forall c :: c in chars ==> c !in rep) ==> forall j :: 0 <= j < k ==> chars[j] !in r
    {
      r := ReplaceChar(r, chars[k], rep);
      k := k + 1;
    }
  }

  /**
   * `safe_filename(filename, replacement)`: the replacements, then the trim
   * and the empty-name fallback.
   */
  method SafeFilename(filename: string, replacement: string) returns (r: string)
    ensures r == Finish(ReplaceAll(filename, InvalidChars(), replacement))
    ensures r != [] && !IsTrimmed(r[0]) && !IsTrimmed(r[|r| - 1])
    ensures (forall c :: c in InvalidChars() ==> c !in replacement) ==>
              forall c :: c in InvalidChars() ==> c !in r
  {
    var safe := ReplaceEach(filename, InvalidChars(), replacement);
    r := StripBy(safe, IsTrimmed);
    if r == [] {
      r := "unnamed";
    }
    if forall c :: c in InvalidChars() ==> c !in replacement {
      forall c | c in InvalidChars() ensures c !in r {
        UnnamedIsValid(c);
        FinishKeepsOut(safe, c);
      }
    }
  }

  lemma UnnamedIsValid(c: char)
    requires c in InvalidChars()
    ensures c !in "unnamed"
  {
  }

  /** A character absent from the input and from the fallback name is absent from the result. */
  lemma FinishKeepsOut(s: string, c: char)
    requires c !in s && c !in "unnamed"
    ensures c !in Finish(s)
  {
    StripKeepsOut(s);
  }

  lemma StripKeepsOut(s: string)
    ensures forall c :: c in StripBy(s, IsTrimmed) ==> c in s
  {
    var l := LStrip(s, IsTrimmed);
    var r := RStrip(l, IsTrimmed);
    assert forall c :: c in r ==> c in l;
  }

  /** The same computation as a function, for callers that are functions. */
  function SafeName(filename: string): (r: string)
    ensures r != []
  {
    Finish(ReplaceAll(filename, InvalidChars(), "_"))
  }

  lemma {:induction false} ReplaceAllAbsent(s: string, chars: string, rep: string)
    requires forall c :: c in chars ==> c !in s
    ensures ReplaceAll(s, chars, rep) == s
    decreases |chars|
  {
    if chars != [] {
      ReplaceAllAbsent(s, chars[1..], rep);
    }
  }

  lemma {:induction false} ReplaceAllRemoves(s: string, chars: string, rep: string)
    requires forall c :: c in chars ==> c !in rep
    ensures forall c :: c in chars ==> c !in ReplaceAll(s, chars, rep)
    ensures forall c :: c in ReplaceAll(s, chars, rep) ==> c in s || c in rep
    decreases |chars|
  {
    if chars != [] {
      var s' := ReplaceChar(s, chars[0], rep);
      ReplaceAllRemoves(s', chars[1..], rep);
      ReplaceAllKeepsOut(s', chars[1..], rep, chars[0]);
    }
  }

  lemma {:induction false} ReplaceAllKeepsOut(s: string, chars: string, rep: string, c: char)
    requires c !in s && c !in rep
    ensures c !in ReplaceAll(s, chars, rep)
    decreases |chars|
  {
    if chars != [] {
      ReplaceAllKeepsOut(ReplaceChar(s, chars[0], rep), chars[1..], rep, c);
    }
  }

  /** With the default replacement, no invalid character survives. */
  lemma SafeNameHasNoInvalidChar(filename: string)
    ensures forall c :: c in InvalidChars() ==> c !in SafeName(filename)
  {
    var chars := InvalidChars();
    var replaced := ReplaceAll(filename, chars, "_");
    ReplaceAllRemoves(filename, chars, "_");
    forall c | c in chars ensures c !in SafeName(filename) {
      UnnamedIsValid(c);
      FinishKeepsOut(replaced, c);
    }
  }

  /** With the default replacement, sanitising twice changes nothing. */
  lemma SafeNameIdempotent(filename: string)
    ensures SafeName(SafeName(filename)) == SafeName(filename)
  {
    var r := SafeName(filename);
    SafeNameHasNoInvalidChar(filename);
    ReplaceAllAbsent(r, InvalidChars(), "_");
    StripByNoop(r, IsTrimmed);
  }

  // ------------------------------------------------------------ format_bytes

  const SizeNames: seq<string> := ["B", "KB", "MB", "GB", "TB"]

  function Pow1024(i: nat): (r: nat)
    ensures r >= 1
  {
    if i == 0 then 1 else 1024 * Pow1024(i - 1)
  }

  /**
   * `format_bytes`: the number shown and the unit chosen.  Division by 1024
   * repeats while the value is at least 1024 and a larger unit exists.  The
   * value is kept exact here; its one-decimal rendering is not modelled.
   */
  method FormatBytes(sizeBytes: int) returns (scaled: real, unit: string)
    ensures sizeBytes == 0 ==> scaled == 0.0 && unit == "B"
    ensures unit in SizeNames
    ensures exists i :: 0 <= i < |SizeNames| && unit == SizeNames[i]
              && scaled * (Pow1024(i) as real) == sizeBytes as real
              && (i < |SizeNames| - 1 ==> scaled < 1024.0)
              && (i > 0 ==> scaled >= 1.0)
  {
    if sizeBytes == 0 {
      scaled, unit := 0.0, "B";
      assert scaled * (Pow1024(0) as real) == sizeBytes as real;
      return;
    }
    scaled := sizeBytes as real;
    var i := 0;
    while scaled >= 1024.0 && i < |SizeNames| - 1
      invariant 0 <= i <= |SizeNames| - 1
      invariant scaled * (Pow1024(i) as real) == sizeBytes as real
      invariant i > 0 ==> scaled >= 1.0
    {
      scaled := scaled / 1024.0;
      i := i + 1;
    }
    unit := SizeNames[i];
  }
}
