/** Attachment saving of WorkFree.AutoMailer/AttachmentManager.cs: the
    folder a mail's attachments go to, file-name sanitising, and the
    counter loop that picks a free name.

    Paths follow the .NET Framework rules on Windows: `\` is the directory
    separator, `/` the alternative one and `:` the volume separator. The
    file system compares paths without regard to case: it is the set of
    the upper-cased paths of the files that exist, `File.Exists(p)` asks
    whether the upper-cased `p` is in it, and writing a file adds its
    upper-cased path. */
module Attachments {
  import opened Wrappers
  import opened Decimal
  import opened Strings

  // ---------------------------------------------------------------------
  // System.IO.Path
  // ---------------------------------------------------------------------

  predicate IsSep(c: char) {
    c == '\\' || c == '/' || c == ':'
  }

  /** `Path.IsPathRooted`. */
  predicate IsRooted(p: string) {
    (|p| >= 1 && (p[0] == '\\' || p[0] == '/')) || (|p| >= 2 && p[1] == ':')
  }

  /** `Path.Combine(p1, p2)`. */
  function Combine(p1: string, p2: string): (r: string)
    ensures |r| >= |p2|
    ensures p2 != [] && p1 != [] && !IsRooted(p2) ==>
              r == (if IsSep(p1[|p1| - 1]) then p1 + p2 else p1 + "\\" + p2)
  {
    if p2 == [] then p1
    else if p1 == [] then p2
    else if IsRooted(p2) then p2
    else if IsSep(p1[|p1| - 1]) then p1 + p2
    else p1 + "\\" + p2
  }

  /** Index of the last separator. */
  function LastSep(s: string): (r: Option<nat>)
    ensures r.Some? ==> r.value < |s| && IsSep(s[r.value]) && forall j :: r.value < j < |s| ==> !IsSep(s[j])
    ensures r.None? ==> forall j :: 0 <= j < |s| ==> !IsSep(s[j])
  {
    if s == [] then None
    else if IsSep(s[|s| - 1]) then Some(|s| - 1)
    else LastSep(s[..|s| - 1])
  }

  /** Index of the last '.'. */
  function LastDot(s: string): (r: Option<nat>)
    ensures r.Some? ==> r.value < |s| && s[r.value] == '.' && forall j :: r.value < j < |s| ==> s[j] != '.'
    ensures r.None? ==> '.' !in s
  {
    if s == [] then None
    else if s[|s| - 1] == '.' then Some(|s| - 1)
    else LastDot(s[..|s| - 1])
  }

  /** `Path.GetFileName`: what follows the last separator. */
  function GetFileName(path: string): (r: string)
    ensures forall j :: 0 <= j < |r| ==> !IsSep(r[j])
  {
    match LastSep(path)
    case None => path
    case Some(i) => path[i + 1..]
  }

  /** `Path.GetFileNameWithoutExtension`: the file name up to its last '.'. */
  function Stem(path: string): string {
    var f := GetFileName(path);
    match LastDot(f)
    case None => f
    case Some(i) => f[..i]
  }

  /** `Path.GetExtension`: from the last '.' of the file name, unless that
      '.' ends the name. */
  function Extension(path: string): (r: string)
    ensures r == [] || r[0] == '.'
  {
    var f := GetFileName(path);
    match LastDot(f)
    case None => []
    case Some(i) => if i == |f| - 1 then [] else f[i..]
  }

  /** Stem and extension of a file name put together give the name back,
      unless the name ends with a '.', which both drop. */
  lemma StemAndExtension(path: string)
    requires var f := GetFileName(path); f == [] || f[|f| - 1] != '.'
    ensures Stem(path) + Extension(path) == GetFileName(path)
  {
  }

  // ---------------------------------------------------------------------
  // SanitizeFileName
  // ---------------------------------------------------------------------

  /** Element `k` of `Path.GetInvalidFileNameChars()` on Windows: '"',
      '<', '>', '|', the characters 0 to 31, then ':', '*', '?', '\' and '/'. */
  function InvalidCharAt(k: nat): char
    requires k < 41
  {
    if k < 4 then "\"<>|"[k] else if k < 36 then (k - 4) as char else ":*?\\/"[k - 36]
  }

  function InvalidFileNameChars(): (cs: seq<char>)
    ensures |cs| == 41 && forall k :: 0 <= k < 41 ==> cs[k] == InvalidCharAt(k)
  {
    seq(41, k requires 0 <= k < 41 => InvalidCharAt(k))
  }

  /** Membership in that array: the control characters below 32 and nine
      punctuation characters. */
  predicate IsInvalidFileNameChar(c: char) {
    c as int < 32 || c in "\"<>|:*?\\/"
  }

  lemma InvalidCharsListed(c: char)
    ensures c in InvalidFileNameChars() <==> IsInvalidFileNameChar(c)
  {
    var cs := InvalidFileNameChars();
    if c as int < 32 {
      assert cs[c as int + 4] == c;
    } else if IsInvalidFileNameChar(c) {
      var specials := "\"<>|:*?\\/";
      var j :| 0 <= j < |specials| && specials[j] == c;
      if j < 4 {
        assert cs[j] == c;
      } else {
        assert cs[j + 32] == c;
      }
    } else {
      forall k | 0 <= k < 41
        ensures cs[k] != c
      {
      }
    }
  }

  /** What sanitising makes of one character. */
  function SanitizedChar(c: char): char {
    if IsInvalidFileNameChar(c) then '_' else c
  }

  function Sanitized(s: string): (r: string)
    ensures |r| == |s| && forall i :: 0 <= i < |s| ==> r[i] == SanitizedChar(s[i])
  {
    seq(|s|, i requires 0 <= i < |s| => SanitizedChar(s[i]))
  }

  /** `string.Replace(char, char)`: every occurrence. */
  function ReplaceChar(s: string, c: char, rep: char): (r: string)
    ensures |r| == |s| && forall i :: 0 <= i < |s| ==> r[i] == if s[i] == c then rep else s[i]
  {
    seq(|s|, i requires 0 <= i < |s| => if s[i] == c then rep else s[i])
  }

  /** `SanitizeFileName`: one `Replace` per invalid character. */
  method SanitizeFileName(fileName: string) returns (r: string)
    ensures r == Sanitized(fileName)
  {
    r := fileName;
    var invalidChars := InvalidFileNameChars();
    for k := 0 to |invalidChars|
      invariant |r| == |fileName|
      invariant forall i :: 0 <= i < |fileName| ==>
                  r[i] == if fileName[i] in invalidChars[..k] then '_' else fileName[i]
    {
      r := ReplaceChar(r, invalidChars[k], '_');
      assert invalidChars[..k + 1] == invalidChars[..k] + [invalidChars[k]];
    }
    assert invalidChars[..|invalidChars|] == invalidChars;
    forall i | 0 <= i < |fileName|
      ensures r[i] == SanitizedChar(fileName[i])
    {
      InvalidCharsListed(fileName[i]);
    }
  }

  /** Sanitising keeps the length, leaves no invalid character, keeps every
      valid one, and doing it twice is doing it once. */
  lemma SanitizeProperties(s: string)
    ensures |Sanitized(s)| == |s|
    ensures forall i :: 0 <= i < |s| ==> !IsInvalidFileNameChar(Sanitized(s)[i])
    ensures forall i :: 0 <= i < |s| && !IsInvalidFileNameChar(s[i]) ==> Sanitized(s)[i] == s[i]
    ensures Sanitized(Sanitized(s)) == Sanitized(s)
  {
  }

  /** A name without invalid characters is left as it is. */
  lemma SanitizeKeepsValidName(s: string)
    requires forall i :: 0 <= i < |s| ==> !IsInvalidFileNameChar(s[i])
    ensures Sanitized(s) == s
  {
  }

  /** A sanitised name has no separator, so `Path.Combine` never treats it
      as a rooted path. */
  lemma SanitizedNotRooted(s: string)
    ensures !IsRooted(Sanitized(s))
    ensures forall i :: 0 <= i < |s| ==> !IsSep(Sanitized(s)[i])
  {
    SanitizeProperties(s);
  }

  // ---------------------------------------------------------------------
  // The save folder
  // ---------------------------------------------------------------------

  datatype Date = Date(year: nat, month: nat, day: nat)

  predicate ValidDate(d: Date) {
    1 <= d.year <= 9999 && 1 <= d.month <= 12 && 1 <= d.day <= 31
  }

  /** `n` in exactly `width` decimal digits, zero-padded. */
  function Padded(n: nat, width: nat): (s: string)
    ensures |s| == width && AllDigits(s)
  {
    if width == 0 then [] else Padded(n / 10, width - 1) + [DigitChar(n % 10)]
  }

  /** `DateTime.Now.ToString("yyyy-MM-dd")`. */
  function DateFolder(d: Date): (s: string)
    requires ValidDate(d)
    ensures |s| == 10 && s[4] == '-' && s[7] == '-'
    ensures AllDigits(s[..4]) && AllDigits(s[5..7]) && AllDigits(s[8..])
  {
    var y, m, dd := Padded(d.year, 4), Padded(d.month, 2), Padded(d.day, 2);
    assert (y + "-" + m + "-" + dd)[..4] == y;
    assert (y + "-" + m + "-" + dd)[5..7] == m;
    assert (y + "-" + m + "-" + dd)[8..] == dd;
    y + "-" + m + "-" + dd
  }

  /** The folder of lines 27-39: the base path, then the date folder when
      folders are organised by date, then the sanitised sender name or
      "Unknown" when the mail has none. */
  function SaveDirectory(basePath: string, organizeByDate: bool, today: Date, senderName: Option<string>): string
    requires ValidDate(today)
  {
    var base := if organizeByDate then Combine(basePath, DateFolder(today)) else basePath;
    Combine(base, Sanitized(senderName.GetOr("Unknown")))
  }

  /** With a base path that does not end in a separator, the folder is
      base\yyyy-MM-dd\sender (the sender part vanishes if the sender name
      is the empty string, as `Path.Combine` ignores an empty part). */
  lemma SaveDirectoryShape(basePath: string, today: Date, senderName: Option<string>)
    requires ValidDate(today)
    requires basePath != [] && !IsSep(basePath[|basePath| - 1])
    ensures var s := Sanitized(senderName.GetOr("Unknown"));
            SaveDirectory(basePath, true, today, senderName)
            == basePath + "\\" + DateFolder(today) + (if s == [] then [] else "\\" + s)
    ensures senderName.None? ==> Sanitized(senderName.GetOr("Unknown")) == "Unknown"
  {
    var df := DateFolder(today);
    assert df[1] != ':' by { assert IsDigit(df[..4][1]); }
    assert df[0] != '\\' && df[0] != '/' by { assert IsDigit(df[..4][0]); }
    var base := basePath + "\\" + df;
    assert base[|base| - 1] == df[9];
    assert IsDigit(df[8..][1]);
    var s := Sanitized(senderName.GetOr("Unknown"));
    SanitizedNotRooted(senderName.GetOr("Unknown"));
    if senderName.None? {
      assert forall i :: 0 <= i < |"Unknown"| ==> !IsInvalidFileNameChar("Unknown"[i]);
      SanitizeKeepsValidName("Unknown");
    }
  }

  // ---------------------------------------------------------------------
  // Picking a free name
  // ---------------------------------------------------------------------

  /** The name tried under counter `n >= 1`: `{stem}_{n}{extension}`. */
  function NumberedName(name: string, n: nat): string {
    Stem(name) + "_" + NatToString(n) + Extension(name)
  }

  /** The `n`-th path the loop tries: the plain name for 0, otherwise
      `{stem}_{n}{ext}`. */
  function PathFor(dir: string, name: string, n: nat): string {
    if n == 0 then Combine(dir, name)
    else Combine(dir, NumberedName(name, n))
  }

  /** `File.Exists(path)` on a file system given by its upper-cased paths. */
  predicate Exists(files: set<string>, path: string) {
    MapUpper(path) in files
  }

  /** The file system after writing each of `written`. */
  function WithFiles(files: set<string>, written: seq<string>): set<string> {
    files + set p | p in written :: MapUpper(p)
  }

  /** Paths that differ only in the case of ASCII letters name one file. */
  lemma CaseIsIgnored(files: set<string>, p: string, q: string)
    requires MapUpper(p) == MapUpper(q)
    ensures Exists(files, p) <==> Exists(files, q)
    ensures Exists(WithFiles(files, [p]), q)
  {
  }

  /** Next to an existing `D\a.txt`, the attachment `A.TXT` is saved as
      `D\A_1.TXT`. */
  lemma CaseClashNumbered()
    ensures !FirstFree(WithFiles({}, ["D\\a.txt"]), "D", "A.TXT", 0)
    ensures FirstFree(WithFiles({}, ["D\\a.txt"]), "D", "A.TXT", 1)
    ensures PathFor("D", "A.TXT", 1) == "D\\A_1.TXT"
  {
    var name := "A.TXT";
    assert LastSep(name[..4]) == None;
    assert GetFileName(name) == name;
    assert LastDot("A.") == Some(1);
    assert "A.T"[..2] == "A." && LastDot("A.T") == Some(1);
    assert "A.TX"[..3] == "A.T" && LastDot("A.TX") == Some(1);
    assert name[..4] == "A.TX" && LastDot(name) == Some(1);
    assert Stem(name) == "A" && Extension(name) == ".TXT";
    assert NumberedName(name, 1) == "A_1.TXT";
    var files := WithFiles({}, ["D\\a.txt"]);
    assert MapUpper("D\\a.txt") == "D\\A.TXT";
    assert files == {"D\\A.TXT"};
    assert MapUpper("D\\A_1.TXT") == "D\\A_1.TXT";
    assert PathFor("D", name, 0) == "D\\A.TXT";
    assert MapUpper("D\\A.TXT") == "D\\A.TXT";
    assert Exists(files, PathFor("D", name, 0));
  }

  /** `n` is the first try whose path is not taken. */
  ghost predicate FirstFree(taken: set<string>, dir: string, name: string, n: nat) {
    !Exists(taken, PathFor(dir, name, n)) && AllTaken(taken, dir, name, n)
  }

  /** Every try below `n` is taken. */
  ghost predicate AllTaken(taken: set<string>, dir: string, name: string, n: nat) {
    forall m :: 0 <= m < n ==> Exists(taken, PathFor(dir, name, m))
  }

  lemma AllTakenStep(taken: set<string>, dir: string, name: string, n: nat)
    requires AllTaken(taken, dir, name, n) && Exists(taken, PathFor(dir, name, n))
    ensures AllTaken(taken, dir, name, n + 1)
  {
  }

  lemma FirstFreeUnique(taken: set<string>, dir: string, name: string, a: nat, b: nat)
    requires FirstFree(taken, dir, name, a) && FirstFree(taken, dir, name, b)
    ensures a == b
  {
    assert !Exists(taken, PathFor(dir, name, a));
    assert !Exists(taken, PathFor(dir, name, b));
  }

  /** The length of the longest path in a set. */
  ghost function MaxLen(s: set<string>): (m: nat)
    ensures forall x :: x in s ==> |x| <= m
    decreases s
  {
    if s == {} then 0
    else
      var x :| x in s;
      var r := MaxLen(s - {x});
      if |x| > r then |x| else r
  }

  /** Only finitely many counters have a taken path: each of them is
      written with no more digits than the longest taken path has
      characters. */
  lemma CounterBound(existing: set<string>, dir: string, name: string) returns (bound: nat)
    ensures bound >= 1
    ensures forall c: nat :: c >= 1 && Exists(existing, PathFor(dir, name, c)) ==> c < bound
  {
    bound := Pow10(MaxLen(existing));
    Pow10Monotone(0, MaxLen(existing));
    forall c: nat | c >= 1 && Exists(existing, PathFor(dir, name, c))
      ensures c < bound
    {
      var p2 := NumberedName(name, c);
      assert |NatToString(c)| <= |p2| <= |PathFor(dir, name, c)| == |MapUpper(PathFor(dir, name, c))| <= MaxLen(existing);
      ShortNumberIsSmall(c, MaxLen(existing));
    }
  }

  /** The duplicate-name loop of lines 56-63. It ends because a long
      enough counter makes the path longer than any existing one. */
  method FreePath(existing: set<string>, dir: string, name: string) returns (path: string, n: nat)
    ensures path == PathFor(dir, name, n) && !Exists(existing, path)
    ensures FirstFree(existing, dir, name, n)
  {
    path := Combine(dir, name);
    var counter := 1;
    ghost var bound := CounterBound(existing, dir, name);
    while Exists(existing, path)
      invariant counter >= 1
      invariant path == PathFor(dir, name, counter - 1)
      invariant AllTaken(existing, dir, name, counter - 1)
      invariant counter <= bound + 1
      decreases bound + 1 - counter
    {
      AllTakenStep(existing, dir, name, counter - 1);
      assert counter <= bound;
      path := Combine(dir, NumberedName(name, counter));
      counter := counter + 1;
    }
    n := counter - 1;
  }

  /** Attachment `path` was written under counter `n`, the first free one
      once the files written before it (`prior`) are taken too. */
  ghost predicate SavedAs(existing: set<string>, dir: string, name: string, prior: seq<string>, path: string, n: nat) {
    path == PathFor(dir, name, n) && FirstFree(WithFiles(existing, prior), dir, name, n)
  }

  /** `SaveAttachments` for one mail: nothing happens when it has no
      attachments; otherwise every attachment is written, in order, under
      the first free name, and each written file counts as taken for the
      ones after it. Returns the folder, the paths written and the counter
      each one needed (0 for the plain name). */
  method SaveAttachments(names: seq<string>, existing: set<string>,
                         basePath: string, organizeByDate: bool, today: Date, senderName: Option<string>)
    returns (dir: Option<string>, saved: seq<string>, suffixes: seq<nat>)
    requires ValidDate(today)
    ensures names == [] ==> dir.None? && saved == []
    ensures names != [] ==> dir == Some(SaveDirectory(basePath, organizeByDate, today, senderName))
    ensures |saved| == |names| == |suffixes|
    ensures forall i :: 0 <= i < |names| ==> SavedAs(existing, dir.value, names[i], saved[..i], saved[i], suffixes[i])
    ensures forall i :: 0 <= i < |saved| ==> !Exists(existing, saved[i])
    ensures forall i, j :: 0 <= i < j < |saved| ==> MapUpper(saved[i]) != MapUpper(saved[j])
  {
    if |names| == 0 {
      return None, [], [];
    }
    var base := basePath;
    if organizeByDate {
      base := Combine(base, DateFolder(today));
    }
    var sender := SanitizeFileName(senderName.GetOr("Unknown"));
    var savePath := Combine(base, sender);
    dir := Some(savePath);
    saved, suffixes := [], [];
    var taken := existing;
    for k := 0 to |names|
      invariant |saved| == k
      invariant taken == WithFiles(existing, saved)
      invariant SavedAll(existing, savePath, names, saved, suffixes)
    {
      var path, n := FreePath(taken, savePath, names[k]);
      SavedAllStep(existing, savePath, names, saved, suffixes, path, n);
      saved := saved + [path];
      suffixes := suffixes + [n];
      taken := taken + {MapUpper(path)};
    }
    SavedAllMeans(existing, savePath, names, saved, suffixes);
  }

  /** The loop invariant of `SaveAttachments`: the first `|saved|`
      attachments are written. */
  ghost predicate SavedAll(existing: set<string>, dir: string, names: seq<string>, saved: seq<string>, suffixes: seq<nat>) {
    |saved| == |suffixes| <= |names| &&
    (forall i :: 0 <= i < |saved| ==> SavedAs(existing, dir, names[i], saved[..i], saved[i], suffixes[i])) &&
    (forall i :: 0 <= i < |saved| ==> !Exists(existing, saved[i])) &&
    (forall i, j :: 0 <= i < j < |saved| ==> MapUpper(saved[i]) != MapUpper(saved[j]))
  }

  lemma SavedAllStep(existing: set<string>, dir: string, names: seq<string>, saved: seq<string>, suffixes: seq<nat>,
                     path: string, n: nat)
    requires SavedAll(existing, dir, names, saved, suffixes) && |saved| < |names|
    requires path == PathFor(dir, names[|saved|], n) && FirstFree(WithFiles(existing, saved), dir, names[|saved|], n)
    ensures SavedAll(existing, dir, names, saved + [path], suffixes + [n])
    ensures WithFiles(existing, saved + [path]) == WithFiles(existing, saved) + {MapUpper(path)}
  {
    var k := |saved|;
    var saved', suffixes' := saved + [path], suffixes + [n];
    assert saved'[..k] == saved;
    forall i | 0 <= i < k
      ensures saved'[..i] == saved[..i] && saved'[i] == saved[i] && suffixes'[i] == suffixes[i]
    {
    }
    assert forall i :: 0 <= i < k ==> MapUpper(saved[i]) in WithFiles(existing, saved);
    assert WithFiles(existing, saved') == WithFiles(existing, saved) + {MapUpper(path)};
    assert SavedAs(existing, dir, names[k], saved'[..k], saved'[k], suffixes'[k]);
  }

  lemma SavedAllMeans(existing: set<string>, dir: string, names: seq<string>, saved: seq<string>, suffixes: seq<nat>)
    requires SavedAll(existing, dir, names, saved, suffixes) && |saved| == |names|
    ensures |saved| == |names| == |suffixes|
    ensures forall i :: 0 <= i < |names| ==> SavedAs(existing, dir, names[i], saved[..i], saved[i], suffixes[i])
    ensures forall i :: 0 <= i < |saved| ==> !Exists(existing, saved[i])
    ensures forall i, j :: 0 <= i < j < |saved| ==> MapUpper(saved[i]) != MapUpper(saved[j])
  {
  }

  /** No attachment overwrites an existing file or another attachment of
      the same mail, even one whose name differs only in case, and a plain
      name is kept whenever it is free. */
  lemma SavedPathsAreFresh(existing: set<string>, dir: string, name: string, prior: seq<string>, path: string, n: nat)
    requires SavedAs(existing, dir, name, prior, path, n)
    ensures !Exists(existing, path)
    ensures forall i :: 0 <= i < |prior| ==> MapUpper(prior[i]) != MapUpper(path)
    ensures !Exists(WithFiles(existing, prior), Combine(dir, name)) <==> n == 0
  {
    assert forall i :: 0 <= i < |prior| ==> MapUpper(prior[i]) in WithFiles(existing, prior);
    if n > 0 {
      assert Exists(WithFiles(existing, prior), PathFor(dir, name, 0));
    }
  }
}
