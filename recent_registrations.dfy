/**
 * The most recent public registrations (website/project/utils.py).
 *
 * The node query keeps public, non-deleted registrations of category
 * "project"; the store hands them over newest first. The generator then
 * walks them with a countdown, skipping retracted registrations and those
 * pending embargo, and stops once the countdown reaches zero. The generator
 * is modelled as a method returning everything it would yield.
 */
module RecentRegistrations {

  datatype Node = Node(
    id: nat,
    category: string,
    isPublic: bool,
    isDeleted: bool,
    isRegistration: bool,
    registeredDate: int,
    isRetracted: bool,
    isPendingEmbargo: bool)

  /** The store query of the function. */
  predicate MatchesRecentQuery(node: Node) {
    node.category == "project" && node.isPublic && !node.isDeleted && node.isRegistration
  }

  /** A queried registration the generator yields rather than skips. */
  predicate Listable(node: Node) {
    !node.isRetracted && !node.isPendingEmbargo
  }

  /** Both: what the function may yield at all. */
  predicate Shown(node: Node) {
    MatchesRecentQuery(node) && Listable(node)
  }

  /** The elements of s satisfying p, in their order in s. */
  function Filter(p: Node -> bool, s: seq<Node>): (r: seq<Node>)
    ensures |r| <= |s|
  {
    if s == [] then []
    else (if p(s[0]) then [s[0]] else []) + Filter(p, s[1..])
  }

  /** The filter keeps exactly the elements satisfying p. */
  lemma {:induction false} FilterMembers(p: Node -> bool, s: seq<Node>)
    ensures forall x :: x in Filter(p, s) <==> x in s && p(x)
  {
    if s != [] {
      FilterMembers(p, s[1..]);
      assert s == [s[0]] + s[1..];
    }
  }

  lemma {:induction false} FilterAppend(p: Node -> bool, a: seq<Node>, b: seq<Node>)
    ensures Filter(p, a + b) == Filter(p, a) + Filter(p, b)
  {
    if a == [] {
      assert a + b == b;
    } else {
      var head := if p(a[0]) then [a[0]] else [];
      assert (a + b)[0] == a[0] && (a + b)[1..] == a[1..] + b;
      assert Filter(p, a + b) == head + Filter(p, a[1..] + b);
      FilterAppend(p, a[1..], b);
      assert head + (Filter(p, a[1..]) + Filter(p, b)) == (head + Filter(p, a[1..])) + Filter(p, b);
    }
  }

  lemma FilterSnoc(p: Node -> bool, s: seq<Node>, x: Node)
    ensures Filter(p, s + [x]) == Filter(p, s) + (if p(x) then [x] else [])
  {
    FilterAppend(p, s, [x]);
    assert Filter(p, [x]) == (if p(x) then [x] else []) + Filter(p, []);
  }

  /** a can be obtained from b by deleting elements. */
  predicate IsSubsequence(a: seq<Node>, b: seq<Node>)
    decreases |b|
  {
    if a == [] then true
    else if b == [] then false
    else (a[0] == b[0] && IsSubsequence(a[1..], b[1..])) || IsSubsequence(a, b[1..])
  }

  /** Every prefix of a filtered sequence is a subsequence of the original. */
  lemma {:induction false} FilterPrefixIsSubsequence(p: Node -> bool, s: seq<Node>, m: nat)
    requires m <= |Filter(p, s)|
    ensures IsSubsequence(Filter(p, s)[..m], s)
  {
    var a := Filter(p, s)[..m];
    if a != [] {
      assert s != [];
      if p(s[0]) {
        assert Filter(p, s) == [s[0]] + Filter(p, s[1..]);
        assert a[0] == s[0] && a[1..] == Filter(p, s[1..])[..m - 1];
        FilterPrefixIsSubsequence(p, s[1..], m - 1);
      } else {
        assert Filter(p, s) == Filter(p, s[1..]);
        FilterPrefixIsSubsequence(p, s[1..], m);
      }
    }
  }

  /** The query followed by the generator's skip test is one filter by Shown. */
  lemma {:induction false} FilterShown(s: seq<Node>)
    ensures Filter(Listable, Filter(MatchesRecentQuery, s)) == Filter(Shown, s)
  {
    if s != [] {
      FilterShown(s[1..]);
      var q := Filter(MatchesRecentQuery, s[1..]);
      if MatchesRecentQuery(s[0]) {
        assert Filter(MatchesRecentQuery, s) == [s[0]] + q;
        assert ([s[0]] + q)[1..] == q;
        assert Filter(Listable, [s[0]] + q) == (if Listable(s[0]) then [s[0]] else []) + Filter(Listable, q);
      } else {
        assert Filter(MatchesRecentQuery, s) == q;
      }
    }
  }

  /** Registration dates never increase along s. */
  ghost predicate NewestFirst(s: seq<Node>) {
    forall i, j :: 0 <= i < j < |s| ==> s[i].registeredDate >= s[j].registeredDate
  }

  /** The head of a newest-first sequence is at least as new as anything after it. */
  lemma HeadIsNewest(s: seq<Node>, x: Node)
    requires NewestFirst(s) && s != [] && x in s[1..]
    ensures s[0].registeredDate >= x.registeredDate
  {
    var j :| 0 <= j < |s[1..]| && s[1..][j] == x;
    assert s[j + 1] == x;
  }

  /** Putting in front an element at least as new as everything keeps the order. */
  lemma ConsNewestFirst(x: Node, rest: seq<Node>)
    requires NewestFirst(rest)
    requires forall y :: y in rest ==> x.registeredDate >= y.registeredDate
    ensures NewestFirst([x] + rest)
  {
    var r := [x] + rest;
    forall i, j | 0 <= i < j < |r| ensures r[i].registeredDate >= r[j].registeredDate {
      if i == 0 {
        assert r[j] == rest[j - 1];
      } else {
        assert r[i] == rest[i - 1] && r[j] == rest[j - 1];
      }
    }
  }

  lemma {:induction false} FilterKeepsNewestFirst(p: Node -> bool, s: seq<Node>)
    requires NewestFirst(s)
    ensures NewestFirst(Filter(p, s))
  {
    if s != [] {
      assert NewestFirst(s[1..]) by {
        forall i, j | 0 <= i < j < |s[1..]| ensures s[1..][i].registeredDate >= s[1..][j].registeredDate {
          assert s[1..][i] == s[i + 1] && s[1..][j] == s[j + 1];
        }
      }
      FilterKeepsNewestFirst(p, s[1..]);
      var rest := Filter(p, s[1..]);
      if p(s[0]) {
        FilterMembers(p, s[1..]);
        forall y | y in rest ensures s[0].registeredDate >= y.registeredDate {
          HeadIsNewest(s, y);
        }
        ConsNewestFirst(s[0], rest);
      }
    }
  }

  /** The queried registrations, in the order the store returns them. */
  function Candidates(nodes: seq<Node>): seq<Node> {
    Filter(MatchesRecentQuery, nodes)
  }

  /** Every candidate the generator would yield if it never stopped. */
  function Eligible(nodes: seq<Node>): seq<Node> {
    Filter(Listable, Candidates(nodes))
  }

  function Min(a: int, b: int): int {
    if a <= b then a else b
  }

  /** The generator, run to exhaustion: everything it yields, in order.
      `nodes` is the node table in the store's newest-first order. */
  method RecentPublicRegistrations(nodes: seq<Node>, n: int) returns (yielded: seq<Node>)
    ensures n >= 0 ==> yielded == Eligible(nodes)[..Min(n, |Eligible(nodes)|)]
    ensures n < 0 ==> yielded == Eligible(nodes)
  {
    var registrations := Candidates(nodes);
    yielded := [];
    var remaining := n;
    var i := 0;
    while i < |registrations|
      invariant 0 <= i <= |registrations|
      invariant yielded == Filter(Listable, registrations[..i])
      invariant remaining == n - |yielded|
      invariant n >= 0 ==> remaining >= 0
    {
      if remaining == 0 {
        break;
      }
      var reg := registrations[i];
      assert registrations[..i + 1] == registrations[..i] + [reg];
      FilterSnoc(Listable, registrations[..i], reg);
      if reg.isRetracted || reg.isPendingEmbargo {
        i := i + 1;
        continue;
      }
      remaining := remaining - 1;
      yielded := yielded + [reg];
      i := i + 1;
    }
    assert registrations[..i] + registrations[i..] == registrations;
    FilterAppend(Listable, registrations[..i], registrations[i..]);
    ghost var all := Filter(Listable, registrations);
    assert all == yielded + Filter(Listable, registrations[i..]);
    assert all[..|yielded|] == yielded;
    if i == |registrations| {
      assert registrations[i..] == [];
      assert all == yielded;
    }
  }

  /** What the generator yields: at most n registrations (when n is not
      negative), none of them retracted, pending embargo, private, deleted,
      not a registration or not a project; a subsequence of the node table,
      newest first when the table is; and exactly the first eligible ones, so
      no eligible registration is skipped before the limit is reached. */
  lemma RecentPublicRegistrationsMeaning(nodes: seq<Node>, n: int)
    ensures var all := Eligible(nodes);
      var out := if n >= 0 then all[..Min(n, |all|)] else all;
      && (n >= 0 ==> |out| <= n)
      && (n == 0 ==> out == [])
      && (forall x :: x in out ==> Shown(x))
      && IsSubsequence(out, nodes)
      && (NewestFirst(nodes) ==> NewestFirst(out))
      && out <= all
      && |out| == (if n >= 0 then Min(n, |all|) else |all|)
  {
    var all := Eligible(nodes);
    FilterShown(nodes);
    var m := if n >= 0 then Min(n, |all|) else |all|;
    assert all[..|all|] == all;
    FilterPrefixIsSubsequence(Shown, nodes, m);
    FilterMembers(Shown, nodes);
    forall x | x in all[..m] ensures Shown(x) {
      assert x in all;
    }
    if NewestFirst(nodes) {
      FilterKeepsNewestFirst(Shown, nodes);
    }
  }
}
