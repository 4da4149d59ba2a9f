/** `specificness(resource)`: the number of pieces `split('/')` cuts the
    normalised base path into, used to try deeper paths before shallower
    ones. */
module Ranking {
  import opened Options
  import opened Resources

  /** How many times `c` occurs in `s`. */
  function Count(s: string, c: char): nat
    decreases |s|
  {
    if s == [] then 0 else (if s[0] == c then 1 else 0) + Count(s[1..], c)
  }

  /** `s.split(sep)` for a one-character separator: the pieces between the
      separators, empty pieces included, so that "" gives [""] and "/" gives
      ["", ""]. */
  function Split(s: string, sep: char): (parts: seq<string>)
    ensures |parts| == Count(s, sep) + 1
    ensures forall n :: 0 <= n < |parts| ==> sep !in parts[n]
    decreases |s|
  {
    if s == [] then [""]
    else
      var rest := Split(s[1..], sep);
      if s[0] == sep then [""] + rest
      else [[s[0]] + rest[0]] + rest[1..]
  }

  /** `parts.join(sep)`, the inverse of `Split`. */
  function Join(parts: seq<string>, sep: char): string
    requires |parts| >= 1
    decreases |parts|
  {
    if |parts| == 1 then parts[0] else parts[0] + [sep] + Join(parts[1..], sep)
  }

  /** Splitting loses nothing: joining the pieces back gives the string. */
  lemma {:induction false} JoinSplit(s: string, sep: char)
    ensures Join(Split(s, sep), sep) == s
    decreases |s|
  {
    if s != [] {
      var rest := Split(s[1..], sep);
      JoinSplit(s[1..], sep);
      if s[0] == sep {
        assert ([""] + rest)[1..] == rest;
      } else {
        var parts := [[s[0]] + rest[0]] + rest[1..];
        if |rest| > 1 {
          assert parts[1..] == rest[1..];
          assert Join(rest, sep) == rest[0] + [sep] + Join(rest[1..], sep);
        }
      }
    }
  }

  /** `specificness(resource)`. */
  function Specificness(r: Resource): nat {
    |Split(Normalize(r.path), '/')|
  }

  /** The score is one more than the number of `/` in the normalised path:
      a missing, "" or "/" path scores 1, "/foo" scores 2 and "/foo/bar"
      scores 3. */
  lemma SpecificnessCountsSlashes(r: Resource)
    ensures Specificness(r) == Count(Normalize(r.path), '/') + 1
    ensures r.path.None? || r.path == Some("") || r.path == Some("/") ==> Specificness(r) == 1
  {
  }

  /** Counting is additive over concatenation. */
  lemma {:induction false} CountAppend(a: string, b: string, c: char)
    ensures Count(a + b, c) == Count(a, c) + Count(b, c)
    decreases |a|
  {
    if a != [] {
      assert (a + b)[0] == a[0] && (a + b)[1..] == a[1..] + b;
      CountAppend(a[1..], b, c);
    } else {
      assert a + b == b;
    }
  }

  /** Appending a segment `"/" + q` to a base path raises the score by one
      plus the slashes inside `q`: "/foo/bar" ranks one above "/foo", which
      ranks one above the root path "". */
  lemma {:induction false} AppendSegment(p: string, q: string, internal: bool, hook: bool)
    requires p != "/" && p + "/" + q != "/"
    ensures Specificness(Resource(Some(p + "/" + q), internal, hook)) ==
      Specificness(Resource(Some(p), internal, hook)) + 1 + Count(q, '/')
  {
    SpecificnessCountsSlashes(Resource(Some(p + "/" + q), internal, hook));
    SpecificnessCountsSlashes(Resource(Some(p), internal, hook));
    CountAppend(p, "/", '/');
    CountAppend(p + "/", q, '/');
    assert Count("/", '/') == 1;
  }

  /** The scores of the root path and "/foo". */
  lemma SpecificnessExamples(internal: bool, hook: bool)
    ensures Specificness(Resource(Some("/"), internal, hook)) == 1
    ensures Specificness(Resource(Some("/foo"), internal, hook)) == 2
  {
    SpecificnessCountsSlashes(Resource(Some("/foo"), internal, hook));
  }

  /** "/foo/bar" scores 3, one above "/foo". */
  lemma DeeperExample(internal: bool, hook: bool)
    ensures Specificness(Resource(Some("/foo/bar"), internal, hook)) == 3
  {
    SpecificnessExamples(internal, hook);
    AppendSegment("/foo", "bar", internal, hook);
    assert "/foo" + "/" + "bar" == "/foo/bar";
  }
}
