/** One line of the board read from the side it is tilted towards: its sum,
 *  its occupied squares, and a reference definition of what a tilt does to
 *  it (every tile slides as far as it can and each tile merges at most once
 *  with the nearest equal tile ahead of it), written independently of the
 *  row-by-row algorithm of Main.java:156-194. */
module Lines {

  /** Sum of the values of s. */
  function Sum(s: seq<int>): int
  {
    if s == [] then 0 else Sum(s[..|s| - 1]) + s[|s| - 1]
  }

  /** The non-zero values of s, in order. */
  function NonZeros(s: seq<int>): (r: seq<int>)
    ensures |r| <= |s|
    ensures forall i :: 0 <= i < |r| ==> r[i] != 0
  {
    if s == [] then []
    else NonZeros(s[..|s| - 1]) + (if s[|s| - 1] != 0 then [s[|s| - 1]] else [])
  }

  /** Number of occupied squares of s. */
  function Count(s: seq<int>): nat
  {
    |NonZeros(s)|
  }

  function Zeros(n: nat): (r: seq<int>)
    ensures |r| == n && forall i :: 0 <= i < n ==> r[i] == 0
  {
    seq(n, _ => 0)
  }

  predicate NoZero(s: seq<int>)
  {
    forall i :: 0 <= i < |s| ==> s[i] != 0
  }

  /** No two neighbouring values of s are equal. */
  predicate NoPair(s: seq<int>)
  {
    forall i :: 0 < i < |s| ==> s[i - 1] != s[i]
  }

  /** The tiles xs (front first) after merging: the front pair merges if
   *  equal, and a merged tile does not merge again. */
  function Collapse(xs: seq<int>): seq<int>
    decreases |xs|
  {
    if |xs| < 2 then xs
    else if xs[0] == xs[1] then [2 * xs[0]] + Collapse(xs[2..])
    else [xs[0]] + Collapse(xs[1..])
  }

  /** The values created by the merges of Collapse(xs), in order. */
  function MergeValues(xs: seq<int>): seq<int>
    decreases |xs|
  {
    if |xs| < 2 then []
    else if xs[0] == xs[1] then [2 * xs[0]] + MergeValues(xs[2..])
    else MergeValues(xs[1..])
  }

  /** The last tile of xs is left unmerged by Collapse(xs), so a tile
   *  appended behind it may still merge into it. */
  predicate Open(xs: seq<int>)
    decreases |xs|
  {
    if |xs| == 0 then false
    else if |xs| == 1 then true
    else if xs[0] == xs[1] then Open(xs[2..])
    else Open(xs[1..])
  }

  /** A line after tilting: the collapsed tiles packed against the front,
   *  then empty squares. */
  function Slide(s: seq<int>): (r: seq<int>)
  {
    CollapseSize(NonZeros(s));
    var m := Collapse(NonZeros(s));
    m + Zeros(|s| - |m|)
  }

  /** No empty square of s lies in front of a tile. */
  predicate Packed(s: seq<int>)
  {
    forall i, j :: 0 <= i < j < |s| && s[i] == 0 ==> s[j] == 0
  }

  lemma {:induction false} SumAppend(a: seq<int>, b: seq<int>)
    ensures Sum(a + b) == Sum(a) + Sum(b)
    decreases |b|
  {
    if b != [] {
      var b' := b[..|b| - 1];
      assert (a + b)[..|a + b| - 1] == a + b';
      SumAppend(a, b');
    } else {
      assert a + b == a;
    }
  }

  lemma {:induction false} SumZeros(n: nat)
    ensures Sum(Zeros(n)) == 0
  {
    if n > 0 {
      assert Zeros(n)[..n - 1] == Zeros(n - 1);
      SumZeros(n - 1);
    }
  }

  lemma {:induction false} NonZerosSum(s: seq<int>)
    ensures Sum(NonZeros(s)) == Sum(s)
  {
    if s != [] {
      var s' := s[..|s| - 1];
      NonZerosSum(s');
      SumAppend(NonZeros(s'), if s[|s| - 1] != 0 then [s[|s| - 1]] else []);
      assert Sum([s[|s| - 1]]) == s[|s| - 1] by {
        assert [s[|s| - 1]][..0] == [];
      }
    }
  }

  lemma {:induction false} NonZerosOfNoZero(s: seq<int>)
    requires NoZero(s)
    ensures NonZeros(s) == s
  {
    if s != [] {
      NonZerosOfNoZero(s[..|s| - 1]);
    }
  }

  lemma {:induction false} NonZerosOfZeros(n: nat)
    ensures NonZeros(Zeros(n)) == []
  {
    if n > 0 {
      assert Zeros(n)[..n - 1] == Zeros(n - 1);
      NonZerosOfZeros(n - 1);
    }
  }

  lemma {:induction false} NonZerosAppend(a: seq<int>, b: seq<int>)
    ensures NonZeros(a + b) == NonZeros(a) + NonZeros(b)
    decreases |b|
  {
    if b == [] {
      assert a + b == a;
    } else {
      var b' := b[..|b| - 1];
      assert (a + b)[..|a + b| - 1] == a + b';
      NonZerosAppend(a, b');
    }
  }

  /** Each merge removes one tile: the collapsed tiles and the merges
   *  together account for every tile. */
  lemma {:induction false} CollapseSize(xs: seq<int>)
    ensures |Collapse(xs)| + |MergeValues(xs)| == |xs|
    decreases |xs|
  {
    if |xs| >= 2 {
      if xs[0] == xs[1] {
        CollapseSize(xs[2..]);
      } else {
        CollapseSize(xs[1..]);
      }
    }
  }

  /** Merging keeps the sum of the tiles. */
  lemma {:induction false} CollapseSum(xs: seq<int>)
    ensures Sum(Collapse(xs)) == Sum(xs)
    decreases |xs|
  {
    if |xs| >= 2 {
      var rest := if xs[0] == xs[1] then xs[2..] else xs[1..];
      var head := if xs[0] == xs[1] then [xs[0], xs[1]] else [xs[0]];
      assert xs == head + rest;
      CollapseSum(rest);
      SumAppend(head, rest);
      var h := if xs[0] == xs[1] then 2 * xs[0] else xs[0];
      SumAppend([h], Collapse(rest));
      assert [h][..0] == [];
      assert head[..|head| - 1] == if xs[0] == xs[1] then [xs[0]] else [];
      if xs[0] == xs[1] {
        assert [xs[0]][..0] == [];
      }
    }
  }

  /** Merging non-empty tiles never makes an empty square. */
  lemma {:induction false} CollapseNoZero(xs: seq<int>)
    requires NoZero(xs)
    ensures NoZero(Collapse(xs))
    decreases |xs|
  {
    if |xs| >= 2 {
      if xs[0] == xs[1] {
        CollapseNoZero(xs[2..]);
      } else {
        CollapseNoZero(xs[1..]);
      }
    }
  }

  /** Tiles with no equal neighbours do not merge. */
  lemma {:induction false} CollapseNoPair(xs: seq<int>)
    requires NoPair(xs)
    ensures Collapse(xs) == xs
    decreases |xs|
  {
    if |xs| >= 2 {
      assert xs[1 - 1] != xs[1];
      forall i | 0 < i < |xs| - 1
        ensures xs[1..][i - 1] != xs[1..][i]
      {
        assert xs[i + 1 - 1] != xs[i + 1];
      }
      CollapseNoPair(xs[1..]);
    }
  }

  /** Tiles with two equal neighbours merge at least once. */
  lemma {:induction false} CollapsePair(xs: seq<int>)
    requires !NoPair(xs)
    ensures |Collapse(xs)| < |xs|
    decreases |xs|
  {
    if xs[0] == xs[1] {
      CollapseSize(xs[2..]);
    } else {
      var i :| 0 < i < |xs| && xs[i - 1] == xs[i];
      assert i > 1;
      assert xs[1..][i - 1 - 1] == xs[1..][i - 1];
      CollapsePair(xs[1..]);
    }
  }

  /** When the last tile is open, it is also the last collapsed tile. */
  lemma {:induction false} OpenLast(xs: seq<int>)
    requires Open(xs)
    ensures |xs| > 0 && |Collapse(xs)| > 0
    ensures Collapse(xs)[|Collapse(xs)| - 1] == xs[|xs| - 1]
    decreases |xs|
  {
    if |xs| >= 2 {
      if xs[0] == xs[1] {
        OpenLast(xs[2..]);
      } else {
        OpenLast(xs[1..]);
      }
    }
  }

  /** A tile equal to the last tile of xs, which is still open, merges into
   *  the last collapsed tile. */
  lemma {:induction false} CollapseSnocMerge(xs: seq<int>, v: int)
    requires Open(xs) && |xs| > 0 && xs[|xs| - 1] == v
    ensures |Collapse(xs)| > 0
    ensures Collapse(xs + [v]) == Collapse(xs)[..|Collapse(xs)| - 1] + [2 * v]
    ensures MergeValues(xs + [v]) == MergeValues(xs) + [2 * v]
    ensures !Open(xs + [v])
    decreases |xs|
  {
    if |xs| == 1 {
      assert xs + [v] == [xs[0], v];
      assert [xs[0], v][2..] == [];
    } else if xs[0] == xs[1] {
      var rest := xs[2..];
      assert rest[|rest| - 1] == xs[|xs| - 1];
      assert (xs + [v])[2..] == rest + [v];
      CollapseSnocMerge(rest, v);
      var c := Collapse(rest);
      assert Collapse(xs) == [2 * xs[0]] + c;
      assert Collapse(xs + [v]) == [2 * xs[0]] + Collapse(rest + [v]);
      assert ([2 * xs[0]] + c)[..|c|] == [2 * xs[0]] + c[..|c| - 1];
    } else {
      var rest := xs[1..];
      assert rest[|rest| - 1] == xs[|xs| - 1];
      assert (xs + [v])[1..] == rest + [v];
      CollapseSnocMerge(rest, v);
      var c := Collapse(rest);
      assert Collapse(xs) == [xs[0]] + c;
      assert Collapse(xs + [v]) == [xs[0]] + Collapse(rest + [v]);
      assert ([xs[0]] + c)[..|c|] == [xs[0]] + c[..|c| - 1];
    }
  }

  /** Any other tile is appended behind the collapsed tiles and stays open. */
  lemma {:induction false} CollapseSnocAppend(xs: seq<int>, v: int)
    requires !(Open(xs) && xs[|xs| - 1] == v)
    ensures Collapse(xs + [v]) == Collapse(xs) + [v]
    ensures MergeValues(xs + [v]) == MergeValues(xs)
    ensures Open(xs + [v])
    decreases |xs|
  {
    if |xs| == 0 {
      assert xs + [v] == [v];
    } else if |xs| == 1 {
      assert xs + [v] == [xs[0], v];
      assert [xs[0], v][1..] == [v];
    } else {
      var rest := if xs[0] == xs[1] then xs[2..] else xs[1..];
      if |rest| > 0 {
        assert rest[|rest| - 1] == xs[|xs| - 1];
      }
      assert (xs + [v])[|xs| - |rest|..] == rest + [v];
      CollapseSnocAppend(rest, v);
    }
  }

  /** Appending one tile behind xs: it merges into the last collapsed tile
   *  exactly when that tile is open and equal to it. */
  lemma CollapseSnoc(xs: seq<int>, v: int)
    ensures Open(xs) ==> |xs| > 0 && |Collapse(xs)| > 0
    ensures Open(xs) && xs[|xs| - 1] == v ==>
      Collapse(xs + [v]) == Collapse(xs)[..|Collapse(xs)| - 1] + [2 * v] &&
      MergeValues(xs + [v]) == MergeValues(xs) + [2 * v] &&
      !Open(xs + [v])
    ensures !(Open(xs) && xs[|xs| - 1] == v) ==>
      Collapse(xs + [v]) == Collapse(xs) + [v] &&
      MergeValues(xs + [v]) == MergeValues(xs) &&
      Open(xs + [v])
  {
    if Open(xs) {
      OpenLast(xs);
    }
    if Open(xs) && xs[|xs| - 1] == v {
      CollapseSnocMerge(xs, v);
    } else {
      CollapseSnocAppend(xs, v);
    }
  }

  /** After a slide no empty square lies in front of a tile. */
  lemma SlidePacked(s: seq<int>)
    ensures |Slide(s)| == |s|
    ensures Packed(Slide(s))
  {
    var m := Collapse(NonZeros(s));
    CollapseSize(NonZeros(s));
    CollapseNoZero(NonZeros(s));
    var r := Slide(s);
    forall i, j | 0 <= i < j < |r| && r[i] == 0
      ensures r[j] == 0
    {
      assert i >= |m|;
    }
  }

  /** x is a power of two no smaller than 2: a value a tile may hold. */
  predicate Power(x: int)
    decreases x
  {
    x == 2 || (x > 2 && x % 2 == 0 && Power(x / 2))
  }

  /** Every square of s is empty or holds a power of two. */
  predicate Powers(s: seq<int>)
  {
    forall i :: 0 <= i < |s| ==> s[i] == 0 || Power(s[i])
  }

  /** Merging two equal tiles makes a tile of the next power. */
  lemma PowerDouble(x: int)
    requires Power(x)
    ensures Power(2 * x)
  {
    assert (2 * x) / 2 == x;
  }

  lemma {:induction false} NonZerosPowers(s: seq<int>)
    requires Powers(s)
    ensures Powers(NonZeros(s))
  {
    if s != [] {
      NonZerosPowers(s[..|s| - 1]);
    }
  }

  /** Merging powers of two gives powers of two. */
  lemma {:induction false} CollapsePowers(xs: seq<int>)
    requires Powers(xs)
    ensures Powers(Collapse(xs))
    decreases |xs|
  {
    if |xs| >= 2 {
      if xs[0] == xs[1] {
        CollapsePowers(xs[2..]);
        if xs[0] != 0 {
          PowerDouble(xs[0]);
        }
        assert Powers([2 * xs[0]]);
      } else {
        CollapsePowers(xs[1..]);
        assert Powers([xs[0]]);
      }
    }
  }

  /** A slide keeps every tile a power of two. */
  lemma SlidePowers(s: seq<int>)
    requires Powers(s)
    ensures Powers(Slide(s))
  {
    NonZerosPowers(s);
    CollapsePowers(NonZeros(s));
  }

  /** A slide keeps the line's sum. */
  lemma SlideSum(s: seq<int>)
    ensures Sum(Slide(s)) == Sum(s)
  {
    var xs := NonZeros(s);
    var m := Collapse(xs);
    CollapseSize(xs);
    CollapseSum(xs);
    NonZerosSum(s);
    SumAppend(m, Zeros(|s| - |m|));
    SumZeros(|s| - |m|);
  }

  /** Tiles followed by empty squares count as just the tiles. */
  lemma CountPadded(m: seq<int>, n: nat)
    requires NoZero(m)
    ensures Count(m + Zeros(n)) == |m|
  {
    NonZerosOfNoZero(m);
    NonZerosOfZeros(n);
    NonZerosAppend(m, Zeros(n));
    assert m + [] == m;
  }

  /** A slide drops the occupied squares by exactly the number of merges. */
  lemma SlideCount(s: seq<int>)
    ensures Count(Slide(s)) + |MergeValues(NonZeros(s))| == Count(s)
  {
    var xs := NonZeros(s);
    CollapseSize(xs);
    CollapseNoZero(xs);
    CountPadded(Collapse(xs), |s| - |Collapse(xs)|);
  }

  /** A line with a tile behind an empty square changes when slid. */
  lemma SlideMovesGap(s: seq<int>)
    requires !Packed(s)
    ensures Slide(s) != s
  {
    SlidePacked(s);
  }

  /** A full line with two equal neighbours changes when slid. */
  lemma SlideMergesFull(s: seq<int>)
    requires NoZero(s) && !NoPair(s)
    ensures Slide(s) != s
  {
    NonZerosOfNoZero(s);
    CollapsePair(s);
    assert Slide(s)[|s| - 1] == 0;
  }

  /** A full line with no two equal neighbours is left as it is. */
  lemma SlideKeepsBlocked(s: seq<int>)
    requires NoZero(s) && NoPair(s)
    ensures Slide(s) == s
  {
    NonZerosOfNoZero(s);
    CollapseNoPair(s);
    assert Slide(s) == s + [];
  }
}
