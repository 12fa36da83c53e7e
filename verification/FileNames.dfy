/** Which file names an upload may have and which ones the scanner takes (`librarian.py`, `catalog.py`). */
module FileNames {
  import opened Common

  const SUFFIX := ".cbz"
  const TEMP_PREFIX := ".nineveh-ingest-"
  const TEMP_SUFFIX := ".part"

  predicate Space(c: char) {
    c in " \t\n\r" || c == 11 as char || c == 12 as char || 28 as char <= c <= 31 as char
  }

  function StripLeft(s: string): (r: string)
    ensures r != [] ==> !Space(r[0])
    ensures |r| <= |s| && r == s[|s| - |r|..]
  {
    if s != [] && Space(s[0]) then StripLeft(s[1..]) else s
  }

  function StripRight(s: string): (r: string)
    ensures r != [] ==> !Space(r[|r| - 1])
    ensures |r| <= |s| && r == s[..|r|]
  {
    if s != [] && Space(s[|s| - 1]) then StripRight(s[..|s| - 1]) else s
  }

  function Strip(s: string): string {
    StripRight(StripLeft(s))
  }

  function Lower(c: char): char {
    if 'A' <= c <= 'Z' then (c as int + 32) as char else c
  }

  function Folded(s: string): (r: string)
    ensures |r| == |s| && forall i :: 0 <= i < |s| ==> r[i] == Lower(s[i])
  {
    if s == [] then [] else [Lower(s[0])] + Folded(s[1..])
  }

  predicate EndsWith(s: string, tail: string) {
    |s| >= |tail| && s[|s| - |tail|..] == tail
  }

  /** `validate_filename`: one plain name, or nothing. */
  function ValidFilename(filename: string): Option<string> {
    var cleaned := Strip(filename);
    if || cleaned == ""
       || |cleaned| > 255
       || '/' in cleaned
       || '\\' in cleaned
       || 0 as char in cleaned
       || cleaned == "."
       || cleaned == ".."
    then None
    else if !EndsWith(Folded(cleaned), SUFFIX) || |cleaned| <= |SUFFIX| then None
    else Some(cleaned)
  }

  /** The names a scan picks up. */
  predicate ScannerAccepts(name: string) {
    EndsWith(Folded(name), SUFFIX)
  }

  /** What `mkstemp` is asked for. */
  predicate IsTemporary(name: string) {
    |name| >= |TEMP_PREFIX| + |TEMP_SUFFIX| && name[..|TEMP_PREFIX|] == TEMP_PREFIX && EndsWith(name, TEMP_SUFFIX)
  }

  lemma LastCharacter(s: string, tail: string)
    requires EndsWith(s, tail) && tail != ""
    ensures s[|s| - 1] == tail[|tail| - 1]
  {
  }

  /** A temporary name is never one the scanner accepts or an upload may have. */
  lemma TemporaryIsHidden(name: string)
    ensures !(IsTemporary(name) && ScannerAccepts(name))
  {
    if IsTemporary(name) {
      LastCharacter(name, TEMP_SUFFIX);
      assert Folded(name)[|name| - 1] == 't';
    }
    if ScannerAccepts(name) {
      LastCharacter(Folded(name), SUFFIX);
    }
  }

  lemma StripSettles(s: string)
    ensures Strip(Strip(s)) == Strip(s)
  {
  }

  /** An accepted name is one path component that the scanner will take, and accepting it again changes
      nothing. */
  lemma ValidFilenameSound(filename: string)
    requires ValidFilename(filename).Some?
    ensures var name := ValidFilename(filename).value;
      && ScannerAccepts(name)
      && !IsTemporary(name)
      && '/' !in name
      && 4 < |name| <= 255
      && ValidFilename(name) == Some(name)
  {
    StripSettles(filename);
    hide Strip, IsTemporary, Folded, EndsWith;
    TemporaryIsHidden(ValidFilename(filename).value);
  }

  // ---- Which names are accepted ------------------------------------------------------------

  predicate AllSpace(s: string) {
    forall i :: 0 <= i < |s| ==> Space(s[i])
  }

  /** The last four characters are ".cbz" in upper or lower case. */
  predicate EndsInCbz(name: string) {
    var n := |name|;
    n >= 4 && name[n - 4] == '.' && name[n - 3] in "cC" && name[n - 2] in "bB" && name[n - 1] in "zZ"
  }

  /** Up to 255 characters, none of them a separator or the null character, none of the outer ones white space, and a
      name before the suffix. */
  predicate PlainName(name: string) {
    && 4 < |name| <= 255
    && !Space(name[0]) && !Space(name[|name| - 1])
    && '/' !in name && '\\' !in name && 0 as char !in name
    && EndsInCbz(name)
  }

  lemma {:induction false} LeftStripped(s: string)
    ensures AllSpace(s[..|s| - |StripLeft(s)|])
  {
    if s != [] && Space(s[0]) {
      LeftStripped(s[1..]);
      var n := |s| - |StripLeft(s)|;
      assert s[..n] == [s[0]] + s[1..][..n - 1];
    }
  }

  lemma {:induction false} RightStripped(s: string)
    ensures AllSpace(s[|StripRight(s)|..])
  {
    if s != [] && Space(s[|s| - 1]) {
      RightStripped(s[..|s| - 1]);
      var n := |StripRight(s)|;
      assert s[n..] == s[..|s| - 1][n..] + [s[|s| - 1]];
    }
  }

  lemma {:induction false} LeftStrips(a: string, s: string)
    requires AllSpace(a) && (s != [] ==> !Space(s[0]))
    ensures StripLeft(a + s) == s
  {
    if a == [] {
      assert a + s == s;
    } else {
      assert (a + s)[1..] == a[1..] + s;
      LeftStrips(a[1..], s);
    }
  }

  lemma {:induction false} RightStrips(s: string, b: string)
    requires AllSpace(b) && (s != [] ==> !Space(s[|s| - 1]))
    ensures StripRight(s + b) == s
  {
    if b == [] {
      assert s + b == s;
    } else {
      assert (s + b)[..|s + b| - 1] == s + b[..|b| - 1];
      RightStrips(s, b[..|b| - 1]);
    }
  }

  lemma LowerIs(c: char)
    ensures Lower(c) == '.' <==> c == '.'
    ensures Lower(c) == 'c' <==> c in "cC"
    ensures Lower(c) == 'b' <==> c in "bB"
    ensures Lower(c) == 'z' <==> c in "zZ"
  {
    assert c in "cC" <==> c == 'c' || c == 'C';
    assert c in "bB" <==> c == 'b' || c == 'B';
    assert c in "zZ" <==> c == 'z' || c == 'Z';
  }

  lemma CbzEnds(name: string)
    ensures EndsWith(Folded(name), ".cbz") <==> EndsInCbz(name)
  {
    hide Lower, Folded;
    var n := |name|;
    if n >= 4 {
      LowerIs(name[n - 4]);
      LowerIs(name[n - 3]);
      LowerIs(name[n - 2]);
      LowerIs(name[n - 1]);
      var folded := Folded(name);
      assert folded[n - 4..] == [folded[n - 4], folded[n - 3], folded[n - 2], folded[n - 1]];
    }
  }

  lemma Strips(a: string, name: string, b: string)
    requires name != [] && !Space(name[0]) && !Space(name[|name| - 1]) && AllSpace(a) && AllSpace(b)
    ensures Strip(a + name + b) == name
  {
    hide Space, StripLeft, StripRight;
    assert a + name + b == a + (name + b) && (name + b)[0] == name[0];
    LeftStrips(a, name + b);
    RightStrips(name, b);
  }

  lemma Stripped(s: string) returns (a: string, b: string)
    ensures s == a + Strip(s) + b && AllSpace(a) && AllSpace(b)
  {
    var left := StripLeft(s);
    var name := StripRight(left);
    LeftStripped(s);
    RightStripped(left);
    assert left == s[|s| - |left|..] && name == left[..|name|];
    hide AllSpace, StripLeft, StripRight;
    a, b := s[..|s| - |left|], left[|name|..];
  }

  /** White space is taken off at both ends, and no more. */
  lemma StripExactly(s: string, name: string)
    requires name != [] && !Space(name[0]) && !Space(name[|name| - 1])
    ensures Strip(s) == name <==> exists a, b :: s == a + name + b && AllSpace(a) && AllSpace(b)
  {
    hide Space, AllSpace, Strip;
    var c, d := Stripped(s);
    if a, b :| s == a + name + b && AllSpace(a) && AllSpace(b) {
      Strips(a, name, b);
    }
  }

  lemma StripClean(s: string)
    ensures Strip(s) != [] ==> !Space(Strip(s)[0]) && !Space(Strip(s)[|Strip(s)| - 1])
  {
    var left := StripLeft(s);
    hide Space;
    assert StripRight(left) != [] ==> StripRight(left)[0] == left[0];
  }

  lemma CleanedIsPlain(filename: string)
    ensures ValidFilename(filename).Some? <==> PlainName(Strip(filename))
    ensures ValidFilename(filename).Some? ==> ValidFilename(filename).value == Strip(filename)
  {
    StripClean(filename);
    CbzEnds(Strip(filename));
    hide Strip, Space, EndsWith, EndsInCbz, Folded;
  }

  /** Which names are accepted, and as what: a plain name, with any white space around it taken off. */
  lemma ValidFilenameExactly(filename: string, name: string)
    ensures ValidFilename(filename) == Some(name) <==>
      PlainName(name) && exists a, b :: filename == a + name + b && AllSpace(a) && AllSpace(b)
  {
    CleanedIsPlain(filename);
    hide ValidFilename, Strip, AllSpace, EndsInCbz;
    if PlainName(name) {
      StripExactly(filename, name);
    }
  }
}
