/** Pairing resources of the two DSP generations that stand next to each other. */
module BillPairs {

  /** Neighbours i and i + 1 are one resource of each generation. */
  predicate Matches(g: seq<nat>, i: nat) {
    i + 1 < |g| && {g[i], g[i + 1]} == {1, 2}
  }

  /** The left members of the pairs taken from a position on, left to right. */
  function Pairs(g: seq<nat>, from: nat): seq<nat>
    decreases |g| - from
  {
    if from + 1 >= |g| then []
    else if Matches(g, from) then [from] + Pairs(g, from + 2)
    else Pairs(g, from + 1)
  }

  datatype Pair = Pair(file: nat, left: nat)

  function InFile(file: nat, lefts: seq<nat>): (r: seq<Pair>)
    ensures |r| == |lefts|
  {
    seq(|lefts|, i requires 0 <= i < |lefts| => Pair(file, lefts[i]))
  }

  function AllPairs(files: seq<seq<nat>>, n: nat): seq<Pair>
    requires n <= |files|
  {
    if n == 0 then [] else AllPairs(files, n - 1) + InFile(n - 1, Pairs(files[n - 1], 0))
  }

  /** The generations of the resources of each file, in file order. */
  method AdjacentGenerationPairs(files: seq<seq<nat>>) returns (pairs: seq<Pair>)
    ensures pairs == AllPairs(files, |files|)
  {
    pairs := [];
    for f := 0 to |files|
      invariant pairs == AllPairs(files, f)
    {
      var g := files[f];
      var index := 0;
      ghost var lefts: seq<nat> := [];
      while index < |g| - 1
        invariant lefts + Pairs(g, index) == Pairs(g, 0)
        invariant pairs == AllPairs(files, f) + InFile(f, lefts)
      {
        if {g[index], g[index + 1]} == {1, 2} {
          pairs := pairs + [Pair(f, index)];
          lefts := lefts + [index];
          index := index + 2;
        } else {
          index := index + 1;
        }
      }
      assert lefts == Pairs(g, 0);
    }
  }

  // ---------- the pairing is a largest one ----------

  /** Disjoint pairs of matching neighbours, within files. */
  predicate Pairing(files: seq<seq<nat>>, s: set<Pair>) {
    && (forall p <- s :: p.file < |files| && Matches(files[p.file], p.left))
    && (forall p, q :: p in s && q in s && p.file == q.file ==> q.left != p.left + 1)
  }

  predicate Disjoint(g: seq<nat>, s: set<nat>) {
    && (forall i <- s :: Matches(g, i))
    && (forall i, j :: i in s && j in s ==> j != i + 1)
  }

  lemma {:induction false} PairsAreDisjoint(g: seq<nat>, from: nat)
    ensures forall k :: 0 <= k < |Pairs(g, from)| ==>
              from <= Pairs(g, from)[k] && Matches(g, Pairs(g, from)[k])
    ensures forall k, m :: 0 <= k < m < |Pairs(g, from)| ==> Pairs(g, from)[k] + 1 < Pairs(g, from)[m]
    decreases |g| - from
  {
    if from + 1 < |g| {
      PairsAreDisjoint(g, if Matches(g, from) then from + 2 else from + 1);
    }
  }

  lemma NoneAtEnd(g: seq<nat>, from: nat)
    ensures forall i: nat | from <= i && |g| <= from + 1 :: !Matches(g, i)
  {}

  lemma OneOfTwo(s: set<nat>, a: nat, b: nat)
    requires !(a in s && b in s)
    ensures |s| <= |s - {a, b}| + 1
  {
    var x := if a in s then a else b;
    assert s - {a, b} == s - {x};
  }

  lemma Beyond(g: seq<nat>, from: nat, s: set<nat>)
    requires Disjoint(g, s) && forall i <- s :: from <= i
    ensures !(from in s && from + 1 in s)
    ensures from + 1 >= |g| ==> s == {}
    ensures var rest := s - {from, from + 1}; Disjoint(g, rest) && forall i <- rest :: from + 2 <= i
    ensures !Matches(g, from) ==> forall i <- s :: from + 1 <= i
  {
    NoneAtEnd(g, from);
    hide Matches;
  }

  /** No disjoint pairs from a position on are more than those taken. */
  lemma {:induction false} PairsAreMost(g: seq<nat>, from: nat, s: set<nat>)
    requires Disjoint(g, s) && forall i <- s :: from <= i
    ensures |s| <= |Pairs(g, from)|
    decreases |g| - from
  {
    hide Matches, Disjoint;
    Beyond(g, from, s);
    if from + 1 >= |g| {
    } else if Matches(g, from) {
      OneOfTwo(s, from, from + 1);
      PairsAreMost(g, from + 2, s - {from, from + 1});
    } else {
      PairsAreMost(g, from + 1, s);
    }
  }

  lemma {:induction false} Renamed(file: nat, s: set<Pair>, lefts: set<nat>)
    requires forall p <- s :: p.file == file && p.left in lefts
    ensures |s| <= |lefts|
  {
    if s != {} {
      var p :| p in s;
      Renamed(file, s - {p}, lefts - {p.left});
    }
  }

  lemma MostInFile(files: seq<seq<nat>>, file: nat, s: set<Pair>)
    requires file < |files| && Pairing(files, s) && forall p <- s :: p.file == file
    ensures |s| <= |Pairs(files[file], 0)|
  {
    hide Matches;
    var lefts := set p <- s :: p.left;
    assert forall p <- s :: p == Pair(file, p.left);
    assert forall i <- lefts :: Pair(file, i) in s;
    PairsAreMost(files[file], 0, lefts);
    Renamed(file, s, lefts);
  }

  lemma PairingShrinks(files: seq<seq<nat>>, s: set<Pair>, t: set<Pair>)
    requires Pairing(files, s) && t <= s
    ensures Pairing(files, t)
  {
    hide Matches;
  }

  lemma {:induction false} MostUpTo(files: seq<seq<nat>>, n: nat, s: set<Pair>)
    requires n <= |files| && Pairing(files, s) && forall p <- s :: p.file < n
    ensures |s| <= |AllPairs(files, n)|
  {
    hide Pairing, Pairs;
    if n == 0 {
      assert s == {};
    } else {
      var before := set p <- s | p.file < n - 1;
      var here := set p <- s | p.file == n - 1;
      assert s == before + here;
      PairingShrinks(files, s, before);
      PairingShrinks(files, s, here);
      MostUpTo(files, n - 1, before);
      MostInFile(files, n - 1, here);
    }
  }

  lemma {:induction false} AllPairsMember(files: seq<seq<nat>>, n: nat, p: Pair)
    requires n <= |files|
    ensures p in AllPairs(files, n) <==> p.file < n && p.left in Pairs(files[p.file], 0)
  {
    if n > 0 {
      AllPairsMember(files, n - 1, p);
      var lefts := Pairs(files[n - 1], 0);
      var here := InFile(n - 1, lefts);
      if p in here {
        var k :| 0 <= k < |here| && here[k] == p;
        assert lefts[k] == p.left;
      }
      if p.file == n - 1 && p.left in lefts {
        var k :| 0 <= k < |lefts| && lefts[k] == p.left;
        assert here[k] == p;
      }
    }
  }

  lemma {:induction false} AllPairsDiffer(files: seq<seq<nat>>, n: nat, i: nat, j: nat)
    requires n <= |files| && i < j < |AllPairs(files, n)|
    ensures AllPairs(files, n)[i] != AllPairs(files, n)[j]
  {
    hide Pairs;
    var before, lefts := AllPairs(files, n - 1), Pairs(files[n - 1], 0);
    assert AllPairs(files, n) == before + InFile(n - 1, lefts);
    if j < |before| {
      AllPairsDiffer(files, n - 1, i, j);
    } else {
      PairsAreDisjoint(files[n - 1], 0);
      if i < |before| {
        AllPairsMember(files, n - 1, before[i]);
        assert before[i] in before;
      }
    }
  }

  /** Two neighbours of one file, of the first and the second generation in either
      order. */
  predicate OfBoth(files: seq<seq<nat>>, p: Pair) {
    && p.file < |files| && p.left + 1 < |files[p.file]|
    && ((files[p.file][p.left] == 1 && files[p.file][p.left + 1] == 2)
        || (files[p.file][p.left] == 2 && files[p.file][p.left + 1] == 1))
  }

  /** Neighbours match exactly when they are of the two generations. */
  lemma MatchesMeans(files: seq<seq<nat>>, p: Pair)
    requires p.file < |files|
    ensures Matches(files[p.file], p.left) <==> OfBoth(files, p)
  {
    var g := files[p.file];
    if Matches(g, p.left) {
      var a, b := g[p.left], g[p.left + 1];
      assert a in {a, b} && b in {a, b} && 1 in {a, b} && 2 in {a, b};
    }
  }

  /** The pairs taken are disjoint, none twice, and no choice of disjoint
      neighbouring pairs of the two generations is larger. */
  lemma PairingIsLargest(files: seq<seq<nat>>, other: set<Pair>)
    requires Pairing(files, other)
    ensures var taken := AllPairs(files, |files|);
            && Pairing(files, set p <- taken)
            && (forall i, j :: 0 <= i < j < |taken| ==> taken[i] != taken[j])
            && |other| <= |taken|
    ensures forall p <- AllPairs(files, |files|) :: OfBoth(files, p)
  {
    var taken := AllPairs(files, |files|);
    forall p <- taken
      ensures p.file < |files| && Matches(files[p.file], p.left) && p.left in Pairs(files[p.file], 0)
      ensures OfBoth(files, p)
    {
      AllPairsMember(files, |files|, p);
      PairsAreDisjoint(files[p.file], 0);
      MatchesMeans(files, p);
    }
    forall p, q | p in taken && q in taken && p.file == q.file
      ensures q.left != p.left + 1
    {
      PairsAreDisjoint(files[p.file], 0);
    }
    forall i, j | 0 <= i < j < |taken|
      ensures taken[i] != taken[j]
    {
      AllPairsDiffer(files, |files|, i, j);
    }
    MostUpTo(files, |files|, other);
  }
}
