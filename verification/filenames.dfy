/**
 * `get_valid_filename`: trims the ends, turns spaces into `_` and deletes
 * every character outside `[-\w./#]`. `\w` is taken as ASCII letters,
 * digits and `_`.
 */
module Filenames {
  import opened Strings

  predicate IsWordChar(c: char) {
    ('a' <= c <= 'z') || ('A' <= c <= 'Z') || ('0' <= c <= '9') || c == '_'
  }

  /** The character class `[-\w./#]` that survives sanitising. */
  predicate IsFilenameChar(c: char) {
    c == '-' || IsWordChar(c) || c == '.' || c == '/' || c == '#'
  }

  predicate AllFilenameChars(s: string) {
    forall i :: 0 <= i < |s| ==> IsFilenameChar(s[i])
  }

  /**
   * The sanitising steps applied after trimming: a character survives when
   * it is in the class; spaces come back as `_`.
   */
  function Clean(s: string): (r: string)
    ensures AllFilenameChars(r) && |r| <= |s|
    ensures forall c :: c in r <==> (c in s && IsFilenameChar(c)) || (c == '_' && ' ' in s)
  {
    var t := ReplaceChar(s, ' ', '_');
    forall c
      ensures c in t <==> (c in s && c != ' ') || (c == '_' && ' ' in s)
    {
      if c in t {
        var i :| 0 <= i < |t| && t[i] == c;
        assert s[i] == c || s[i] == ' ';
      }
      if c in s && c != ' ' {
        var i :| 0 <= i < |s| && s[i] == c;
        assert t[i] == c;
      }
      if c == '_' && ' ' in s {
        var i :| 0 <= i < |s| && s[i] == ' ';
        assert t[i] == c;
      }
    }
    Keep(t, IsFilenameChar)
  }

  function GetValidFilename(s: string): (r: string)
    ensures AllFilenameChars(r)
    ensures ' ' !in r
    ensures |r| <= |s|
  {
    Clean(Strip(s))
  }

  /** No filename character is whitespace, so `strip` leaves such strings alone. */
  lemma StripFilename(s: string)
    requires AllFilenameChars(s)
    ensures Strip(s) == s
  {
    var t := TrimRight(s, IsSpace);
    assert t == s;
    var u := TrimLeft(t, IsSpace);
    assert u == t[|t| - |u|..];
  }

  /** Right-stripping stops before a final character that is not whitespace. */
  lemma StripRightStops(s: string)
    requires s != [] && !IsSpace(s[|s| - 1])
    ensures TrimRight(s, IsSpace) == s
  {
  }

  /** The strings the sanitiser leaves unchanged are exactly those made of filename characters. */
  lemma FixedPoints(s: string)
    ensures GetValidFilename(s) == s <==> AllFilenameChars(s)
  {
    if AllFilenameChars(s) {
      StripFilename(s);
      CleanFilename(s);
    }
  }

  /** Cleaning leaves a string of filename characters alone. */
  lemma CleanFilename(s: string)
    requires AllFilenameChars(s)
    ensures Clean(s) == s
  {
    assert ' ' !in s by {
      forall i | 0 <= i < |s|
        ensures s[i] != ' '
      {
        assert IsFilenameChar(s[i]);
      }
    }
    ReplaceCharAbsent(s, ' ', '_');
  }

  /** Sanitising twice is sanitising once. */
  lemma Idempotent(s: string)
    ensures GetValidFilename(GetValidFilename(s)) == GetValidFilename(s)
  {
    FixedPoints(GetValidFilename(s));
  }

  /**
   * A non-empty suffix made of filename characters survives sanitising
   * untouched: whatever precedes it is cleaned, the suffix stays at the end.
   */
  lemma SuffixSurvives(s: string, ext: string)
    requires ext != [] && AllFilenameChars(ext)
    ensures GetValidFilename(s + ext) == Clean(TrimLeft(s, IsSpace)) + ext
    ensures EndsWith(GetValidFilename(s + ext), ext)
  {
    StripRightStops(s + ext);
    TrimLeftAppend(s, ext, IsSpace);
    var u := TrimLeft(s, IsSpace);
    assert Strip(s + ext) == u + ext;
    CleanAppend(u, ext);
    var r := Clean(u) + ext;
    assert r[|r| - |ext|..] == ext;
  }

  /** Cleaning distributes over a suffix of filename characters, which it keeps. */
  lemma CleanAppend(u: string, ext: string)
    requires AllFilenameChars(ext)
    ensures Clean(u + ext) == Clean(u) + ext
  {
    ReplaceCharAppend(u, ext, ' ', '_');
    assert ' ' !in ext;
    ReplaceCharAbsent(ext, ' ', '_');
    KeepAppend(ReplaceChar(u, ' ', '_'), ext, IsFilenameChar);
  }

  lemma AppendFilenameChars(a: string, b: string)
    requires AllFilenameChars(a) && AllFilenameChars(b)
    ensures AllFilenameChars(a + b)
  {
    assert forall i :: |a| <= i < |a + b| ==> (a + b)[i] == b[i - |a|];
  }
}
