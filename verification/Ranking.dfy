/** ORDER BY ... LIMIT, and sorting of task paths. */
module Ranking {
  import opened Model

  datatype Rank = Rank(major: int, minor: int)

  predicate Before(a: Rank, b: Rank) {
    a.major < b.major || (a.major == b.major && a.minor < b.minor)
  }

  /** A first-k selection: as many candidates as asked for, none left out that comes strictly
      before one that was taken. Ties are broken arbitrarily, as in SQL. */
  ghost predicate FirstK(rank: map<Id, Rank>, candidates: set<Id>, k: nat, picked: set<Id>) {
    && candidates <= rank.Keys
    && picked <= candidates
    && |picked| == (if k <= |candidates| then k else |candidates|)
    && forall c, u | c in picked && u in candidates && u !in picked :: !Before(rank[u], rank[c])
  }

  method PickFirst(rank: map<Id, Rank>, candidates: set<Id>, k: nat) returns (picked: set<Id>)
    requires candidates <= rank.Keys
    ensures FirstK(rank, candidates, k, picked)
  {
    picked := {};
    var rest := candidates;
    while |picked| < k && rest != {}
      invariant picked !! rest && picked + rest == candidates && |picked| <= k
      invariant forall c, u | c in picked && u in rest :: !Before(rank[u], rank[c])
      decreases |rest|
    {
      var best := First(rank, rest);
      picked := picked + {best};
      rest := rest - {best};
    }
    assert candidates - picked == rest;
  }

  method First(rank: map<Id, Rank>, ids: set<Id>) returns (best: Id)
    requires ids <= rank.Keys && ids != {}
    ensures best in ids && forall u | u in ids :: !Before(rank[u], rank[best])
  {
    best :| best in ids;
    var rest := ids - {best};
    while rest != {}
      invariant best in ids && best !in rest && rest <= ids
      invariant forall u | u in ids - rest :: !Before(rank[u], rank[best])
      decreases |rest|
    {
      var next :| next in rest;
      if Before(rank[next], rank[best]) {
        best := next;
      }
      rest := rest - {next};
    }
  }

  /** Two first-k selections of the same candidates differ only among equals: a row that one of
      them takes and the other leaves out ranks level with everything it could be swapped for. */
  lemma FirstKIsTight(rank: map<Id, Rank>, candidates: set<Id>, k: nat, a: set<Id>, b: set<Id>, i: Id, j: Id)
    requires FirstK(rank, candidates, k, a) && FirstK(rank, candidates, k, b)
    requires i in a && i !in b && j in b && j !in a
    ensures rank[i] == rank[j]
  {
    assert !Before(rank[j], rank[i]) && !Before(rank[i], rank[j]);
  }

  // ---- Strings in code point order ----

  predicate Less(a: string, b: string) {
    b != "" && (a == "" || a[0] < b[0] || (a[0] == b[0] && Less(a[1..], b[1..])))
  }

  lemma {:induction false} LessIsTotal(a: string, b: string)
    ensures a == b || Less(a, b) || Less(b, a)
    ensures !(Less(a, b) && Less(b, a)) && !Less(a, a)
  {
    if a != "" && b != "" {
      LessIsTotal(a[1..], b[1..]);
      LessIsTotal(a[1..], a[1..]);
      if a[0] == b[0] && a[1..] == b[1..] {
        assert a == [a[0]] + a[1..] == b;
      }
    } else if a != "" {
      LessIsTotal(a[1..], a[1..]);
    }
  }

  lemma {:induction false} LessIsTransitive(a: string, b: string, c: string)
    requires Less(a, b) && Less(b, c)
    ensures Less(a, c)
  {
    if a != "" && a[0] == b[0] == c[0] {
      LessIsTransitive(a[1..], b[1..], c[1..]);
    }
  }

  predicate SortedDistinct(ps: seq<string>) {
    forall i, j | 0 <= i < j < |ps| :: Less(ps[i], ps[j])
  }

  method Sorted(paths: set<string>) returns (ps: seq<string>)
    ensures SortedDistinct(ps) && forall p :: p in ps <==> p in paths
  {
    ps := [];
    var rest := paths;
    while rest != {}
      invariant rest <= paths && SortedDistinct(ps)
      invariant forall p :: p in ps <==> p in paths - rest
      invariant forall p, q | p in ps && q in rest :: Less(p, q)
      decreases |rest|
    {
      var least := Least(rest);
      ps := ps + [least];
      rest := rest - {least};
    }
  }

  method Least(paths: set<string>) returns (least: string)
    requires paths != {}
    ensures least in paths && forall q | q in paths && q != least :: Less(least, q)
  {
    least :| least in paths;
    var rest := paths - {least};
    while rest != {}
      invariant least in paths && least !in rest && rest <= paths
      invariant forall q | q in paths - rest && q != least :: Less(least, q)
      decreases |rest|
    {
      var next :| next in rest;
      LessIsTotal(least, next);
      if Less(next, least) {
        forall q | q in paths - rest && q != least
          ensures Less(next, q)
        {
          LessIsTransitive(next, least, q);
        }
        least := next;
      }
      rest := rest - {next};
    }
  }
}
