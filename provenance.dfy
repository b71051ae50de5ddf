/**
 * The name of the provenance log: `fname, extension = outfile.split('.')`
 * followed by `fname + '.txt'`.
 */
module Provenance {
  import opened Errors

  /** The number of occurrences of `c` in `s`. */
  function Count(s: string, c: char): nat
  {
    if s == [] then 0 else (if s[0] == c then 1 else 0) + Count(s[1..], c)
  }

  /**
   * `s.split(sep)` for a one-character separator: the pieces between the
   * separators, empty pieces included, so there is always one more piece
   * than there are separators.
   */
  function Split(s: string, sep: char): (parts: seq<string>)
    ensures |parts| == Count(s, sep) + 1
    ensures forall k :: 0 <= k < |parts| ==> sep !in parts[k]
    decreases |s|
  {
    if s == [] then [[]]
    else
      var rest := Split(s[1..], sep);
      if s[0] == sep then [[]] + rest
      else [[s[0]] + rest[0]] + rest[1..]
  }

  /** `sep.join(parts)`. */
  function Join(parts: seq<string>, sep: char): string
    requires parts != []
  {
    if |parts| == 1 then parts[0] else parts[0] + [sep] + Join(parts[1..], sep)
  }

  /** Joining the pieces with the separator gives back the original string. */
  lemma {:induction false} JoinSplit(s: string, sep: char)
    ensures Join(Split(s, sep), sep) == s
    decreases |s|
  {
    if s != [] {
      var rest := Split(s[1..], sep);
      JoinSplit(s[1..], sep);
      var parts := Split(s, sep);
      if s[0] == sep {
        assert parts[1..] == rest;
      } else {
        assert parts[1..] == rest[1..];
        if |rest| > 1 {
          assert Join(rest, sep) == rest[0] + [sep] + Join(rest[1..], sep);
          assert Join(parts, sep) == [s[0]] + rest[0] + [sep] + Join(rest[1..], sep);
        }
      }
    }
  }

  /** A string without the separator is a single piece. */
  lemma {:induction false} SplitWithout(s: string, sep: char)
    requires sep !in s
    ensures Split(s, sep) == [s]
    decreases |s|
  {
    if s != [] {
      assert sep !in s[1..];
      SplitWithout(s[1..], sep);
      assert [s[0]] + s[1..] == s;
    }
  }

  /** A separator after a separator-free prefix ends the first piece there. */
  lemma {:induction false} SplitAfter(a: string, sep: char, b: string)
    requires sep !in a
    ensures Split(a + [sep] + b, sep) == [a] + Split(b, sep)
    decreases |a|
  {
    var s := a + [sep] + b;
    if a == [] {
      assert s[1..] == b;
    } else {
      assert s[1..] == a[1..] + [sep] + b;
      assert sep !in a[1..];
      SplitAfter(a[1..], sep, b);
      assert [a[0]] + a[1..] == a;
    }
  }

  /**
   * The file the provenance record of `outfile` is written to. Naming
   * succeeds exactly when the output name has one '.'; otherwise the
   * unpacking into two names fails with the number of pieces it got.
   */
  function LogName(outfile: string): (r: Result<string>)
    ensures r.Success? <==> Count(outfile, '.') == 1
    ensures r.Failure? ==> r.error == UnpackError(Count(outfile, '.') + 1)
  {
    var parts := Split(outfile, '.');
    if |parts| != 2 then Failure(UnpackError(|parts|)) else Success(parts[0] + ".txt")
  }

  /** With one '.', the log is the text before it followed by ".txt". */
  lemma LogNameOf(fname: string, extension: string)
    requires '.' !in fname && '.' !in extension
    ensures LogName(fname + "." + extension) == Success(fname + ".txt")
  {
    SplitAfter(fname, '.', extension);
    SplitWithout(extension, '.');
  }

  /**
   * Conversely, a log name is only ever produced for `fname + "." + extension`
   * with neither part holding a '.', and it is `fname + ".txt"`.
   */
  lemma LogNameInverse(outfile: string)
    requires LogName(outfile).Success?
    ensures var parts := Split(outfile, '.');
            && |parts| == 2 && '.' !in parts[0] && '.' !in parts[1]
            && outfile == parts[0] + "." + parts[1]
            && LogName(outfile).value == parts[0] + ".txt"
  {
    JoinSplit(outfile, '.');
    var parts := Split(outfile, '.');
    assert Join(parts[1..], '.') == parts[1];
  }

  /** "map.png" logs to "map.txt"; "my.map.png" and "map" do not split in two. */
  lemma LogNameExamples()
    ensures LogName("map.png") == Success("map.txt")
    ensures LogName("my.map.png") == Failure(UnpackError(3))
    ensures LogName("map") == Failure(UnpackError(1))
  {
    assert "map.png" == "map" + "." + "png";
    LogNameOf("map", "png");
    assert "map" + ".txt" == "map.txt";
    assert "my.map.png" == "my" + "." + "map.png";
    SplitAfter("my", '.', "map.png");
    SplitAfter("map", '.', "png");
    SplitWithout("png", '.');
    SplitWithout("map", '.');
  }
}
