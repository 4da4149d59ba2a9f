/** The base-path matcher: `generateRegex` builds
      '^' + escape(path) + '(?:[/?].*)?$'
    and `url.match` runs it. Instead of a regular-expression engine, the text
    that `escape(path)` contributes to the pattern is read into a list of
    items (a literal character, or a literal character under `*`), the way
    the RegExp constructor reads it, and a small matcher gives the meaning of
    the anchored pattern. */
module Pattern {
  import opened Options
  import opened Resources

  /** ECMAScript `\s`: white space and line terminators. */
  predicate IsSpace(c: char) {
    c in {'\t', '\n', '\U{000B}', '\U{000C}', '\r', ' ', '\U{00A0}', '\U{1680}',
          '\U{2028}', '\U{2029}', '\U{202F}', '\U{205F}', '\U{3000}', '\U{FEFF}'}
    || ('\U{2000}' <= c <= '\U{200A}')
  }

  /** The characters `.` refuses to match. */
  predicate IsLineTerminator(c: char) {
    c in {'\n', '\r', '\U{2028}', '\U{2029}'}
  }

  /** The class `[-[\]{}()+?.,\\^$|#\s]` of router.js line 3; `*` is not in it. */
  predicate IsEscaped(c: char) {
    c in "-[]{}()+?.,\\^$|#" || IsSpace(c)
  }

  /** `path.replace(escapeRegExp, '\\$&')`: a backslash before every
      character of the class. */
  function Escape(p: string): string {
    if p == [] then []
    else (if IsEscaped(p[0]) then ['\\', p[0]] else [p[0]]) + Escape(p[1..])
  }

  /** One term of the compiled path: a character, or a character repeated
      zero or more times. */
  datatype Item = Lit(c: char) | Star(c: char)

  /** How the RegExp constructor reads the escaped path, left to right, with
      `acc` the items read so far. An escaped character (an identity escape)
      is a literal; an unescaped `*` repeats the item before it, and is a
      SyntaxError ("Nothing to repeat") right after `^` or after another
      `*`. A trailing lone backslash is a SyntaxError as well; `Escape` never
      produces one. */
  function Parse(src: string, acc: seq<Item>): Option<seq<Item>>
    decreases |src|
  {
    if src == [] then Some(acc)
    else if src[0] == '\\' then
      if |src| == 1 then None else Parse(src[2..], acc + [Lit(src[1])])
    else if src[0] == '*' then
      if acc != [] && acc[|acc| - 1].Lit? then
        Parse(src[1..], acc[..|acc| - 1] + [Star(acc[|acc| - 1].c)])
      else None
    else Parse(src[1..], acc + [Lit(src[0])])
  }

  /** `(?:[/?].*)?$`: nothing more, or `/` or `?` followed by characters
      other than line terminators. */
  predicate TailMatches(s: string) {
    s == [] || (s[0] in "/?" && forall k :: 1 <= k < |s| ==> !IsLineTerminator(s[k]))
  }

  /** The anchored pattern `^ items (?:[/?].*)?$` matches all of `s`. */
  predicate ItemsMatch(items: seq<Item>, s: string)
    decreases |items| + |s|
  {
    if items == [] then TailMatches(s)
    else match items[0]
      case Lit(c) => s != [] && s[0] == c && ItemsMatch(items[1..], s[1..])
      case Star(c) =>
        ItemsMatch(items[1..], s) || (s != [] && s[0] == c && ItemsMatch(items, s[1..]))
  }

  /** `generateRegex(path)`: None when the RegExp constructor throws. */
  function GenerateRegex(path: Option<string>): Option<seq<Item>> {
    Parse(Escape(Normalize(path)), [])
  }

  /** `url.match(generateRegex(path))` taken as a boolean; None when building
      the pattern throws. */
  function UrlMatches(url: string, path: Option<string>): Option<bool> {
    match GenerateRegex(path)
    case None => None
    case Some(items) => Some(ItemsMatch(items, url))
  }

  /** The items of a path read character for character. */
  function Lits(p: string): seq<Item> {
    seq(|p|, k requires 0 <= k < |p| => Lit(p[k]))
  }

  /** Escaping then reading gives back the path as literals: every character
      of the escape class, and every other character except `*`, stands for
      itself. */
  lemma {:induction false} ParseEscape(p: string, acc: seq<Item>)
    requires '*' !in p
    ensures Parse(Escape(p), acc) == Some(acc + Lits(p))
    decreases |p|
  {
    if p == [] {
      assert acc + Lits(p) == acc;
    } else {
      var rest := Escape(p[1..]);
      ParseEscape(p[1..], acc + [Lit(p[0])]);
      assert acc + [Lit(p[0])] + Lits(p[1..]) == acc + Lits(p);
      if IsEscaped(p[0]) {
        var src := ['\\', p[0]] + rest;
        assert src[2..] == rest;
      } else {
        var src := [p[0]] + rest;
        assert src[1..] == rest;
      }
    }
  }

  /** A literal pattern matches exactly the strings made of it and a tail. */
  lemma {:induction false} LitsMatch(p: string, s: string)
    ensures ItemsMatch(Lits(p), s) <==> |s| >= |p| && s[..|p|] == p && TailMatches(s[|p|..])
    decreases |p|
  {
    if p != [] {
      assert Lits(p)[1..] == Lits(p[1..]);
      if s != [] {
        LitsMatch(p[1..], s[1..]);
        if |s| >= |p| {
          assert s[1..][|p| - 1..] == s[|p|..];
          assert s[..|p|] == [s[0]] + s[1..][..|p| - 1];
          assert p == [p[0]] + p[1..];
        }
      }
    }
  }

  /** For a path without `*`, the URL matches exactly when it is the
      normalised path itself, or starts with it and goes on with `/` or `?`
      and then no line terminator. */
  lemma MatchesLiteralPath(url: string, path: Option<string>)
    requires '*' !in Normalize(path)
    ensures var p := Normalize(path);
      UrlMatches(url, path) == Some(
        url == p ||
        (|url| > |p| && url[..|p|] == p && url[|p|] in "/?" &&
         forall k :: |p| < k < |url| ==> !IsLineTerminator(url[k])))
  {
    var p := Normalize(path);
    ParseEscape(p, []);
    assert [] + Lits(p) == Lits(p);
    LitsMatch(p, url);
    if |url| >= |p| && url[..|p|] == p {
      TailAfter(url, p);
    }
  }

  /** What follows a prefix `p` of the URL is an accepted tail exactly when
      the URL is `p`, or goes on with `/` or `?` and then no line
      terminator. */
  lemma TailAfter(url: string, p: string)
    requires |url| >= |p| && url[..|p|] == p
    ensures TailMatches(url[|p|..]) <==>
      url == p ||
      (|url| > |p| && url[|p|] in "/?" &&
       forall k :: |p| < k < |url| ==> !IsLineTerminator(url[k]))
  {
    var t := url[|p|..];
    assert t == [] <==> url == p;
    if |t| > 0 {
      assert t[0] == url[|p|];
      if forall k :: 1 <= k < |t| ==> !IsLineTerminator(t[k]) {
        forall k | |p| < k < |url| ensures !IsLineTerminator(url[k]) {
          assert url[k] == t[k - |p|];
        }
      }
      if forall k :: |p| < k < |url| ==> !IsLineTerminator(url[k]) {
        forall k | 1 <= k < |t| ensures !IsLineTerminator(t[k]) {
          assert t[k] == url[|p| + k];
        }
      }
    }
  }

  /** With no `*` in the path and no line terminator in the URL: the URL
      matches exactly when it equals the path, or extends it with a `/` or
      `?` next. */
  lemma MatchesPrefix(url: string, path: Option<string>)
    requires '*' !in Normalize(path)
    requires forall k :: 0 <= k < |url| ==> !IsLineTerminator(url[k])
    ensures var p := Normalize(path);
      UrlMatches(url, path) == Some(url == p || (|url| > |p| && url[..|p|] == p && url[|p|] in "/?"))
  {
    MatchesLiteralPath(url, path);
  }

  /** A missing, "" or "/" path is the empty prefix: it matches the empty URL
      and every URL that starts with `/` or `?` (and has no line terminator). */
  lemma RootPathMatches(url: string, path: Option<string>)
    requires path.None? || path == Some("") || path == Some("/")
    requires forall k :: 0 <= k < |url| ==> !IsLineTerminator(url[k])
    ensures UrlMatches(url, path) == Some(url == "" || url[0] in "/?")
  {
    MatchesPrefix(url, path);
  }

  /** A path that starts with `*` is a pattern with nothing to repeat: the
      RegExp constructor throws. */
  lemma LeadingStarThrows(url: string, path: Option<string>)
    requires |Normalize(path)| > 0 && Normalize(path)[0] == '*'
    ensures UrlMatches(url, path).None?
  {
    var p := Normalize(path);
    assert Escape(p) == [p[0]] + Escape(p[1..]);
  }

  /** `/`, `a` and `*` are not in the escape class. */
  lemma PlainChars()
    ensures !IsEscaped('/') && !IsEscaped('a') && !IsEscaped('*')
  {
    assert !IsSpace('/') && !IsSpace('a') && !IsSpace('*');
  }

  /** So escaping leaves "/a*" as it is. */
  lemma EscapeStarPath()
    ensures Escape("/a*") == "/a*"
  {
    PlainChars();
    var p := "/a*";
    assert Escape(p[2..]) == "*" by { assert p[2..][1..] == []; }
    assert Escape(p[1..]) == "a*" by { assert p[1..][1..] == p[2..]; }
  }

  /** The unescaped `*` repeats the `a` read before it. */
  lemma ParseStarPath()
    ensures Parse("/a*", []) == Some([Lit('/'), Star('a')])
  {
    var src := "/a*";
    assert src[1..] == "a*" && src[1..][1..] == "*" && src[1..][1..][1..] == [];
    assert src[0] == '/' && src[1..][0] == 'a' && src[1..][1..][0] == '*';
    assert Parse(src, []) == Parse(src[1..], [] + [Lit('/')]);
    assert [] + [Lit('/')] == [Lit('/')];
    assert [] + [Lit('/')] + [Lit('a')] == [Lit('/'), Lit('a')];
    assert Parse(src[1..], [Lit('/')]) == Parse(src[1..][1..], [Lit('/'), Lit('a')]);
    assert [Lit('/'), Lit('a')][..1] + [Star('a')] == [Lit('/'), Star('a')];
  }

  /** `*` is not escaped: the base path "/a*" builds the pattern `/`
      followed by `a` repeated. */
  lemma StarPathItems()
    ensures GenerateRegex(Some("/a*")) == Some([Lit('/'), Star('a')])
  {
    EscapeStarPath();
    ParseStarPath();
  }

  /** So "/a*" matches the URL "/", where `a` is repeated zero times... */
  lemma StarRepeatsNone()
    ensures UrlMatches("/", Some("/a*")) == Some(true)
  {
    StarPathItems();
    var items := [Lit('/'), Star('a')];
    assert items[1..] == [Star('a')] && [Star('a')][1..] == [];
    assert ItemsMatch(items, "/");
  }

  /** ... and the URL "/aa", where it is repeated twice. */
  lemma StarRepeatsTwice()
    ensures UrlMatches("/aa", Some("/a*")) == Some(true)
  {
    StarPathItems();
    var items := [Lit('/'), Star('a')];
    assert items[1..] == [Star('a')] && [Star('a')][1..] == [];
    var s := "/aa";
    assert s[1..] == "aa" && s[1..][1..] == "a" && s[1..][1..][1..] == [];
    assert ItemsMatch([Star('a')], "a");
    assert ItemsMatch([Star('a')], "aa");
    assert ItemsMatch(items, "/aa");
  }
}
