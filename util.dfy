/** `parse_url_path` (util.py): strip one leading slash, then split on every slash, as Python's `str.split("/")`. */
module Util {

  /** Python's `s.split(sep)` with an explicit one-character separator: the pieces between separators,
      empty pieces included. */
  function Split(s: string, sep: char): (r: seq<string>)
    ensures |r| >= 1
    ensures forall i :: 0 <= i < |r| ==> sep !in r[i]
  {
    if s == [] then [""]
    else
      var rest := Split(s[1..], sep);
      if s[0] == sep then [""] + rest else [[s[0]] + rest[0]] + rest[1..]
  }

  /** Python's `sep.join(parts)`, the inverse of `Split`. */
  function Join(parts: seq<string>, sep: char): string
    requires |parts| >= 1
  {
    if |parts| == 1 then parts[0] else parts[0] + [sep] + Join(parts[1..], sep)
  }

  /** Number of occurrences of `c` in `s`. */
  function Occurrences(s: string, c: char): nat
  {
    if s == [] then 0 else (if s[0] == c then 1 else 0) + Occurrences(s[1..], c)
  }

  /** Python's `s.startswith(prefix)`. */
  predicate StartsWith(s: string, prefix: string)
  {
    |prefix| <= |s| && s[..|prefix|] == prefix
  }

  /** The path with at most one leading slash removed. */
  function StripLeadingSlash(path: string): (r: string)
    ensures StartsWith(path, "/") ==> path == "/" + r
    ensures !StartsWith(path, "/") ==> r == path
  {
    if StartsWith(path, "/") then path[1..] else path
  }

  /** `parse_url_path`: the slash-separated segments of a request path. */
  function ParseUrlPath(path: string): (r: seq<string>)
    ensures |r| >= 1
    ensures forall i :: 0 <= i < |r| ==> '/' !in r[i]
  {
    Split(StripLeadingSlash(path), '/')
  }

  /** Joining the pieces with the separator gives back the split string. */
  lemma {:induction false} JoinSplit(s: string, sep: char)
    ensures Join(Split(s, sep), sep) == s
  {
    if s != [] {
      var rest := Split(s[1..], sep);
      JoinSplit(s[1..], sep);
      if s[0] == sep {
        assert Split(s, sep)[1..] == rest;
        assert s == [sep] + s[1..];
      } else {
        var r := Split(s, sep);
        assert r[0] == [s[0]] + rest[0] && r[1..] == rest[1..];
        if |rest| == 1 {
          assert s == [s[0]] + rest[0];
        } else {
          assert rest == [rest[0]] + rest[1..];
          assert Join(rest, sep) == rest[0] + [sep] + Join(rest[1..], sep);
          assert s == [s[0]] + s[1..];
        }
      }
    }
  }

  /** A string with k separators splits into k + 1 pieces. */
  lemma {:induction false} SplitCount(s: string, sep: char)
    ensures |Split(s, sep)| == Occurrences(s, sep) + 1
  {
    if s != [] {
      SplitCount(s[1..], sep);
    }
  }

  /** Round trip of `parse_url_path`: joining the segments with '/' gives the path minus its optional leading
      slash, and there is one segment more than there are slashes left after stripping. */
  lemma ParseUrlPathRoundTrip(path: string)
    ensures Join(ParseUrlPath(path), '/') == StripLeadingSlash(path)
    ensures |ParseUrlPath(path)| == Occurrences(StripLeadingSlash(path), '/') + 1
  {
    JoinSplit(StripLeadingSlash(path), '/');
    SplitCount(StripLeadingSlash(path), '/');
  }

  /** Only one leading slash is removed: a path starting with "//" keeps an empty first segment. */
  lemma ParseUrlPathDoubleSlash(rest: string)
    ensures ParseUrlPath("//" + rest)[0] == ""
  {
    assert StripLeadingSlash("//" + rest) == "/" + rest;
    assert ("/" + rest)[0] == '/';
  }
}
