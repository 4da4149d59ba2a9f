/** `Router.prototype.matchResources`: the registered resources whose base
    path matches the URL, most specific first. */
module MatchSet {
  import opened Options
  import opened Resources
  import opened Pattern
  import opened Ranking

  /** The pattern of the resource's base path can be built. */
  predicate Compiles(r: Resource) {
    GenerateRegex(r.path).Some?
  }

  /** The resource's base path matches the URL. */
  predicate Matches(url: string, r: Resource) {
    UrlMatches(url, r.path) == Some(true)
  }

  /** `resources.filter(d => url.match(generateRegex(d.settings.path)))`:
      the matching resources in registration order; None when building one
      of the patterns throws. */
  function Filter(rs: seq<Resource>, url: string): (r: Option<seq<Resource>>)
    ensures r.None? <==> exists k :: 0 <= k < |rs| && !Compiles(rs[k])
    ensures r.Some? ==>
      forall x :: multiset(r.value)[x] == if Matches(url, x) then multiset(rs)[x] else 0
    decreases |rs|
  {
    if rs == [] then Some([])
    else
      match UrlMatches(url, rs[0].path)
      case None => None
      case Some(hit) =>
        match Filter(rs[1..], url)
        case None => None
        case Some(tail) =>
          assert rs == [rs[0]] + rs[1..];
          assert multiset(rs) == multiset{rs[0]} + multiset(rs[1..]);
          assert Matches(url, rs[0]) == hit;
          Some(if hit then [rs[0]] + tail else tail)
  }

  /** Ordered by non-increasing specificness. */
  ghost predicate NonIncreasing(s: seq<Resource>) {
    forall j, k :: 0 <= j < k < |s| ==> Specificness(s[j]) >= Specificness(s[k])
  }

  /** Puts `x` into an ordered sequence, ahead of the elements it ties with. */
  function Insert(x: Resource, s: seq<Resource>): (r: seq<Resource>)
    requires NonIncreasing(s)
    ensures NonIncreasing(r)
    ensures multiset(r) == multiset(s) + multiset{x}
    decreases |s|
  {
    if s == [] || Specificness(x) >= Specificness(s[0]) then
      HeadFirst(s);
      ConsNonIncreasing(x, s);
      [x] + s
    else
      var tail := Insert(x, s[1..]);
      assert s == [s[0]] + s[1..];
      HeadFirst(s);
      InsertedFrom(x, s[1..], tail);
      ConsNonIncreasing(s[0], tail);
      [s[0]] + tail
  }

  /** What an insertion returns is the inserted element or came from the
      sequence. */
  lemma InsertedFrom(x: Resource, s: seq<Resource>, r: seq<Resource>)
    requires multiset(r) == multiset(s) + multiset{x}
    ensures forall y :: y in r ==> y == x || y in s
  {
    forall y | y in r ensures y == x || y in s {
      assert multiset(r)[y] > 0;
    }
  }

  /** The head of an ordered sequence is at least as specific as all of it. */
  lemma {:induction false} HeadFirst(s: seq<Resource>)
    requires NonIncreasing(s)
    ensures forall y :: y in s ==> Specificness(y) <= Specificness(s[0])
  {
    forall y | y in s ensures Specificness(y) <= Specificness(s[0]) {
      var k :| 0 <= k < |s| && s[k] == y;
    }
  }

  /** An element at least as specific as everything after it can head an
      ordered sequence. */
  lemma {:induction false} ConsNonIncreasing(h: Resource, t: seq<Resource>)
    requires NonIncreasing(t)
    requires forall y :: y in t ==> Specificness(y) <= Specificness(h)
    ensures NonIncreasing([h] + t)
  {
    var r := [h] + t;
    forall j, k | 0 <= j < k < |r| ensures Specificness(r[j]) >= Specificness(r[k]) {
      assert r[k] == t[k - 1];
      if j > 0 {
        assert r[j] == t[j - 1];
      } else {
        assert r[k] in t;
      }
    }
  }

  /** `.sort((a, b) => specificness(b) - specificness(a))`. Insertion sort,
      which keeps ties in registration order; only the order by specificness
      and the permutation are promised. */
  function Sort(s: seq<Resource>): (r: seq<Resource>)
    ensures NonIncreasing(r)
    ensures multiset(r) == multiset(s)
    decreases |s|
  {
    if s == [] then []
    else
      assert s == [s[0]] + s[1..];
      Insert(s[0], Sort(s[1..]))
  }

  /** `matchResources(url)`: [] when nothing is registered; None when
      building a pattern throws; otherwise a permutation of the matching
      resources ordered by non-increasing specificness. */
  function MatchResources(rs: seq<Resource>, url: string): (r: Option<seq<Resource>>)
    ensures rs == [] ==> r == Some([])
    ensures r.None? <==> exists k :: 0 <= k < |rs| && !Compiles(rs[k])
    ensures r.Some? ==> NonIncreasing(r.value)
    ensures r.Some? ==>
      forall x :: multiset(r.value)[x] == if Matches(url, x) then multiset(rs)[x] else 0
  {
    if |rs| == 0 then Some([])
    else
      match Filter(rs, url)
      case None => None
      case Some(hits) => Some(Sort(hits))
  }

  /** Every resource of the match set matches the URL, and every registered
      resource that matches is in it. */
  lemma MatchSetMembers(rs: seq<Resource>, url: string, x: Resource)
    requires MatchResources(rs, url).Some?
    ensures x in MatchResources(rs, url).value <==> x in rs && Matches(url, x)
  {
    var m := MatchResources(rs, url).value;
    assert x in m <==> multiset(m)[x] > 0;
    assert x in rs <==> multiset(rs)[x] > 0;
  }

  /** A deeper base path is tried before a shallower one: wherever a
      resource of higher specificness stands in the match set, it stands
      before every resource of lower specificness. */
  lemma DeeperFirst(rs: seq<Resource>, url: string, j: nat, k: nat)
    requires MatchResources(rs, url).Some?
    requires j < |MatchResources(rs, url).value| && k < |MatchResources(rs, url).value|
    requires Specificness(MatchResources(rs, url).value[j]) > Specificness(MatchResources(rs, url).value[k])
    ensures j < k
  {
  }

  /** Base paths without `*` always build a pattern, so `matchResources`
      does not throw. */
  lemma NoStarNoThrow(rs: seq<Resource>, url: string)
    requires forall k :: 0 <= k < |rs| ==> '*' !in Normalize(rs[k].path)
    ensures MatchResources(rs, url).Some?
  {
    forall k | 0 <= k < |rs| ensures Compiles(rs[k]) {
      ParseEscape(Normalize(rs[k].path), []);
    }
  }
}
