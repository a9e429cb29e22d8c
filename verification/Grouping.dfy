/** Grouping a list by family: families in order of first appearance, each
    family's rows in their own order, each group shrunk before it is emitted. */
module Grouping {

  function Families<T>(fam: T -> string, rows: seq<T>): seq<string> {
    if rows == [] then []
    else
      var front := Families(fam, rows[..|rows| - 1]);
      var f := fam(rows[|rows| - 1]);
      if f in front then front else front + [f]
  }

  function Bucket<T>(fam: T -> string, rows: seq<T>, f: string): seq<T> {
    if rows == [] then []
    else
      var n := |rows| - 1;
      if fam(rows[n]) == f then Bucket(fam, rows[..n], f) + [rows[n]] else Bucket(fam, rows[..n], f)
  }

  /** The Python slice `xs[-n:]`: the last n items, everything for n = 0, and all
      but the first -n items for a negative n. */
  function Tail<T>(xs: seq<T>, n: int): seq<T> {
    if n > 0 then (if n < |xs| then xs[|xs| - n..] else xs)
    else if -n < |xs| then xs[-n..] else []
  }

  /** Where a Python slice `[start:]` begins: a negative start counts from the end, and
      either is clipped to the list. */
  function SliceStart(length: nat, start: int): nat {
    var at := if start < 0 then length + start else start;
    if at < 0 then 0 else if at > length then length else at
  }

  /** `xs[-n:]` in these terms: the last n items, or everything for n = 0, or what is left
      without the first -n. */
  lemma TailIsSlice<T>(xs: seq<T>, n: int)
    ensures Tail(xs, n) == xs[SliceStart(|xs|, -n)..]
    ensures n > 0 ==> |Tail(xs, n)| == if n < |xs| then n else |xs|
    ensures n < 0 ==> |Tail(xs, n)| == if -n < |xs| then |xs| + n else 0
  {
  }

  function Group<T>(fam: T -> string, shrink: seq<T> -> seq<T>, rows: seq<T>, families: seq<string>): seq<T> {
    if families == [] then []
    else
      var n := |families| - 1;
      Group(fam, shrink, rows, families[..n]) + shrink(Bucket(fam, rows, families[n]))
  }

  function Regroup<T>(fam: T -> string, shrink: seq<T> -> seq<T>, rows: seq<T>): seq<T> {
    Group(fam, shrink, rows, Families(fam, rows))
  }

  ghost predicate Unrepeated<T>(xs: seq<T>) {
    forall i, j :: 0 <= i < j < |xs| ==> xs[i] != xs[j]
  }

  /** Where a family stands in a list of families. */
  function Rank(families: seq<string>, f: string): (r: nat)
    ensures r <= |families| && f !in families[..r] && (r < |families| ==> families[r] == f)
  {
    if families == [] || families[0] == f then 0 else 1 + Rank(families[1..], f)
  }

  lemma {:induction false} RankAt(families: seq<string>, k: nat)
    requires Unrepeated(families) && k < |families|
    ensures Rank(families, families[k]) == k
  {
    if k > 0 { RankAt(families[1..], k - 1); }
  }

  /** A run of rows of one family. */
  ghost predicate Uniform<T>(fam: T -> string, rows: seq<T>, f: string) {
    forall i :: 0 <= i < |rows| ==> fam(rows[i]) == f
  }

  /** A shrink that stays inside the family and never empties a group. */
  ghost predicate Shrinks<T(!new)>(fam: T -> string, shrink: seq<T> -> seq<T>) {
    && (forall xs, f :: Uniform(fam, xs, f) ==> Uniform(fam, shrink(xs), f))
    && forall xs :: xs != [] ==> shrink(xs) != []
  }

  lemma {:induction false} FamiliesFacts<T>(fam: T -> string, rows: seq<T>)
    ensures Unrepeated(Families(fam, rows))
    ensures forall f :: f in Families(fam, rows) <==> Bucket(fam, rows, f) != []
  {
    if rows != [] {
      FamiliesFacts(fam, rows[..|rows| - 1]);
    }
  }

  lemma {:induction false} BucketConcat<T>(fam: T -> string, xs: seq<T>, ys: seq<T>, f: string)
    ensures Bucket(fam, xs + ys, f) == Bucket(fam, xs, f) + Bucket(fam, ys, f)
  {
    if ys == [] {
      assert xs + ys == xs;
    } else {
      var n := |ys| - 1;
      BucketConcat(fam, xs, ys[..n], f);
      assert (xs + ys)[..|xs + ys| - 1] == xs + ys[..n];
    }
  }

  lemma {:induction false} BucketUniform<T>(fam: T -> string, rows: seq<T>, f: string)
    ensures Uniform(fam, Bucket(fam, rows, f), f)
    ensures Uniform(fam, rows, f) ==> Bucket(fam, rows, f) == rows
    ensures forall g :: g != f && Uniform(fam, rows, f) ==> Bucket(fam, rows, g) == []
  {
    if rows != [] {
      var n := |rows| - 1;
      BucketUniform(fam, rows[..n], f);
      assert rows == rows[..n] + [rows[n]];
    }
  }

  lemma {:induction false} BucketMembers<T>(fam: T -> string, rows: seq<T>, f: string)
    ensures forall x :: x in Bucket(fam, rows, f) <==> x in rows && fam(x) == f
  {
    if rows != [] {
      var n := |rows| - 1;
      BucketMembers(fam, rows[..n], f);
      assert rows == rows[..n] + [rows[n]];
    }
  }

  lemma PartBucket<T(!new)>(fam: T -> string, shrink: seq<T> -> seq<T>, rows: seq<T>, g: string, f: string)
    requires Shrinks(fam, shrink)
    ensures Bucket(fam, shrink(Bucket(fam, rows, g)), f) == if f == g then shrink(Bucket(fam, rows, g)) else []
  {
    hide Bucket;
    BucketUniform(fam, rows, g);
    BucketUniform(fam, shrink(Bucket(fam, rows, g)), g);
  }

  lemma {:induction false} GroupBuckets<T(!new)>(
    fam: T -> string, shrink: seq<T> -> seq<T>, rows: seq<T>, families: seq<string>, f: string)
    requires Unrepeated(families) && Shrinks(fam, shrink)
    ensures Bucket(fam, Group(fam, shrink, rows, families), f)
         == if f in families then shrink(Bucket(fam, rows, f)) else []
  {
    hide Shrinks, Bucket, Unrepeated;
    if families == [] {
      EmptyBucket(fam, f);
    } else {
      var n := |families| - 1;
      LastApart(families);
      GroupBuckets(fam, shrink, rows, families[..n], f);
      BucketConcat(fam, Group(fam, shrink, rows, families[..n]), shrink(Bucket(fam, rows, families[n])), f);
      PartBucket(fam, shrink, rows, families[n], f);
    }
  }

  lemma EmptyBucket<T>(fam: T -> string, f: string)
    ensures Bucket(fam, [], f) == [] && Families(fam, []) == []
  {
  }

  lemma LastApart<T>(xs: seq<T>)
    requires Unrepeated(xs) && xs != []
    ensures var n := |xs| - 1;
            && Unrepeated(xs[..n]) && xs[n] !in xs[..n]
            && forall x :: x in xs <==> x in xs[..n] || x == xs[n]
  {
  }

  lemma {:induction false} FamiliesConcat<T>(fam: T -> string, xs: seq<T>, part: seq<T>, f: string)
    requires Uniform(fam, part, f) && part != [] && f !in Families(fam, xs)
    ensures Families(fam, xs + part) == Families(fam, xs) + [f]
  {
    var n := |part| - 1;
    assert (xs + part)[..|xs + part| - 1] == xs + part[..n];
    if n == 0 {
      assert xs + part[..n] == xs;
    } else {
      FamiliesConcat(fam, xs, part[..n], f);
    }
  }

  lemma {:induction false} GroupFamilies<T(!new)>(
    fam: T -> string, shrink: seq<T> -> seq<T>, rows: seq<T>, families: seq<string>)
    requires Unrepeated(families) && Shrinks(fam, shrink)
    requires forall f :: f in families ==> Bucket(fam, rows, f) != []
    ensures Families(fam, Group(fam, shrink, rows, families)) == families
  {
    if families != [] {
      var n := |families| - 1;
      var front := families[..n];
      assert families == front + [families[n]];
      GroupFamilies(fam, shrink, rows, front);
      BucketUniform(fam, rows, families[n]);
      FamiliesConcat(fam, Group(fam, shrink, rows, front), shrink(Bucket(fam, rows, families[n])), families[n]);
    }
  }

  /** A regrouped list keeps the families and their order, and holds for each
      family exactly its shrunk rows. */
  lemma {:induction false} RegroupShape<T(!new)>(fam: T -> string, shrink: seq<T> -> seq<T>, rows: seq<T>, f: string)
    requires Shrinks(fam, shrink)
    ensures Families(fam, Regroup(fam, shrink, rows)) == Families(fam, rows)
    ensures Bucket(fam, Regroup(fam, shrink, rows), f)
         == if f in Families(fam, rows) then shrink(Bucket(fam, rows, f)) else []
  {
    FamiliesFacts(fam, rows);
    GroupFamilies(fam, shrink, rows, Families(fam, rows));
    GroupBuckets(fam, shrink, rows, Families(fam, rows), f);
  }

  lemma {:induction false} GroupCongruence<T>(
    fam: T -> string, shrink: seq<T> -> seq<T>, xs: seq<T>, ys: seq<T>, families: seq<string>)
    requires forall f :: f in families ==> shrink(Bucket(fam, xs, f)) == shrink(Bucket(fam, ys, f))
    ensures Group(fam, shrink, xs, families) == Group(fam, shrink, ys, families)
  {
    if families != [] {
      var n := |families| - 1;
      assert families == families[..n] + [families[n]];
      GroupCongruence(fam, shrink, xs, ys, families[..n]);
    }
  }

  lemma AppendShape<T>(fam: T -> string, rows: seq<T>, r: T)
    ensures Families(fam, rows + [r])
         == if fam(r) in Families(fam, rows) then Families(fam, rows) else Families(fam, rows) + [fam(r)]
    ensures forall f ::
              Bucket(fam, rows + [r], f) == if fam(r) == f then Bucket(fam, rows, f) + [r] else Bucket(fam, rows, f)
  {
  }

  /** Shrinking a shrunk group changes nothing more. */
  ghost predicate Absorbs<T(!new)>(shrink: seq<T> -> seq<T>) {
    forall xs :: shrink(shrink(xs)) == shrink(xs)
  }

  lemma RegroupTwice<T(!new)>(fam: T -> string, shrink: seq<T> -> seq<T>, rows: seq<T>)
    requires Shrinks(fam, shrink) && Absorbs(shrink)
    ensures Regroup(fam, shrink, Regroup(fam, shrink, rows)) == Regroup(fam, shrink, rows)
  {
    var c := Regroup(fam, shrink, rows);
    RegroupShape(fam, shrink, rows, "");
    forall f | f in Families(fam, rows) ensures shrink(Bucket(fam, c, f)) == shrink(Bucket(fam, rows, f)) {
      RegroupShape(fam, shrink, rows, f);
    }
    GroupCongruence(fam, shrink, c, rows, Families(fam, rows));
  }

  /** Regrouping first and appending later loses nothing, if shrinking is as
      indifferent. */
  lemma RegroupAppend<T(!new)>(fam: T -> string, shrink: seq<T> -> seq<T>, rows: seq<T>, r: T)
    requires Shrinks(fam, shrink) && Absorbs(shrink) && shrink([]) == []
    requires forall xs :: shrink(shrink(xs) + [r]) == shrink(xs + [r])
    ensures Regroup(fam, shrink, Regroup(fam, shrink, rows) + [r]) == Regroup(fam, shrink, rows + [r])
  {
    var c := Regroup(fam, shrink, rows);
    AppendShape(fam, rows, r);
    AppendShape(fam, c, r);
    RegroupShape(fam, shrink, rows, "");
    forall f | f in Families(fam, rows + [r])
      ensures shrink(Bucket(fam, c + [r], f)) == shrink(Bucket(fam, rows + [r], f))
    {
      RegroupShape(fam, shrink, rows, f);
      FamiliesFacts(fam, rows);
    }
    GroupCongruence(fam, shrink, c + [r], rows + [r], Families(fam, rows + [r]));
  }

  /** Members of a group come from the rows of its families. */
  lemma {:induction false} GroupMembers<T(!new)>(
    fam: T -> string, shrink: seq<T> -> seq<T>, rows: seq<T>, families: seq<string>)
    requires Shrinks(fam, shrink)
    ensures forall x :: x in Group(fam, shrink, rows, families) ==>
              fam(x) in families && x in shrink(Bucket(fam, rows, fam(x)))
  {
    if families != [] {
      var n := |families| - 1;
      var part := shrink(Bucket(fam, rows, families[n]));
      GroupMembers(fam, shrink, rows, families[..n]);
      BucketUniform(fam, rows, families[n]);
      assert families == families[..n] + [families[n]];
      assert Uniform(fam, part, families[n]);
      forall x | x in part ensures fam(x) == families[n] {
        var i :| 0 <= i < |part| && part[i] == x;
      }
    }
  }

  // ---- contiguous lists ----------------------------------------------------

  /** Each family's rows stand together. */
  ghost predicate Contiguous<T>(fam: T -> string, rows: seq<T>) {
    forall i, j, k :: 0 <= i < j < k < |rows| && fam(rows[i]) == fam(rows[k]) ==> fam(rows[j]) == fam(rows[i])
  }

  lemma {:induction false} GroupContiguous<T(!new)>(
    fam: T -> string, shrink: seq<T> -> seq<T>, rows: seq<T>, families: seq<string>)
    requires Unrepeated(families) && Shrinks(fam, shrink)
    ensures Contiguous(fam, Group(fam, shrink, rows, families))
  {
    hide Bucket, Shrinks, Unrepeated;
    if families != [] {
      var n := |families| - 1;
      LastApart(families);
      GroupContiguous(fam, shrink, rows, families[..n]);
      GroupMembers(fam, shrink, rows, families[..n]);
      PartUniform(fam, shrink, rows, families[n]);
      JoinContiguous(fam, Group(fam, shrink, rows, families[..n]), shrink(Bucket(fam, rows, families[n])), families[n]);
    }
  }

  lemma PartUniform<T(!new)>(fam: T -> string, shrink: seq<T> -> seq<T>, rows: seq<T>, f: string)
    requires Shrinks(fam, shrink)
    ensures Uniform(fam, shrink(Bucket(fam, rows, f)), f)
  {
    hide Bucket;
    BucketUniform(fam, rows, f);
  }

  lemma JoinContiguous<T>(fam: T -> string, xs: seq<T>, part: seq<T>, f: string)
    requires Contiguous(fam, xs) && Uniform(fam, part, f) && forall x :: x in xs ==> fam(x) != f
    ensures Contiguous(fam, xs + part)
  {
  }

  /** A contiguous list whose groups shrinking leaves alone is left alone. */
  lemma {:induction false} RegroupFixed<T>(fam: T -> string, shrink: seq<T> -> seq<T>, rows: seq<T>)
    requires Contiguous(fam, rows)
    requires forall f :: f in Families(fam, rows) ==> shrink(Bucket(fam, rows, f)) == Bucket(fam, rows, f)
    ensures Regroup(fam, shrink, rows) == rows
  {
    Reassemble(fam, rows);
    GroupPlain(fam, shrink, rows, Families(fam, rows));
  }

  function Plain<T>(fam: T -> string, rows: seq<T>, families: seq<string>): seq<T> {
    if families == [] then []
    else Plain(fam, rows, families[..|families| - 1]) + Bucket(fam, rows, families[|families| - 1])
  }

  lemma {:induction false} GroupPlain<T>(fam: T -> string, shrink: seq<T> -> seq<T>, rows: seq<T>, families: seq<string>)
    requires forall f :: f in families ==> shrink(Bucket(fam, rows, f)) == Bucket(fam, rows, f)
    ensures Group(fam, shrink, rows, families) == Plain(fam, rows, families)
  {
    if families != [] {
      var n := |families| - 1;
      assert families == families[..n] + [families[n]];
      GroupPlain(fam, shrink, rows, families[..n]);
    }
  }

  lemma {:induction false} PlainAppend<T>(fam: T -> string, rows: seq<T>, r: T, families: seq<string>)
    requires fam(r) !in families
    ensures Plain(fam, rows + [r], families) == Plain(fam, rows, families)
  {
    if families != [] {
      var n := |families| - 1;
      assert families == families[..n] + [families[n]];
      PlainAppend(fam, rows, r, families[..n]);
      AppendShape(fam, rows, r);
    }
  }

  lemma {:induction false} Member<T>(fam: T -> string, rows: seq<T>, f: string) returns (i: nat)
    requires Bucket(fam, rows, f) != []
    ensures i < |rows| && fam(rows[i]) == f
    decreases |rows|
  {
    var n := |rows| - 1;
    if fam(rows[n]) == f { i := n; } else { i := Member(fam, rows[..n], f); }
  }

  lemma {:induction false} LastFamily<T>(fam: T -> string, rows: seq<T>)
    requires Contiguous(fam, rows) && rows != []
    ensures Families(fam, rows) != []
    ensures Families(fam, rows)[|Families(fam, rows)| - 1] == fam(rows[|rows| - 1])
  {
    var n := |rows| - 1;
    if n > 0 {
      LastFamily(fam, rows[..n]);
      FamiliesFacts(fam, rows[..n]);
      if fam(rows[n]) in Families(fam, rows[..n]) {
        var i := Member(fam, rows[..n], fam(rows[n]));
        assert fam(rows[n - 1]) == fam(rows[i]);
      }
    }
  }

  lemma {:induction false} Reassemble<T>(fam: T -> string, rows: seq<T>)
    requires Contiguous(fam, rows)
    ensures Plain(fam, rows, Families(fam, rows)) == rows
  {
    hide Bucket, Contiguous, Unrepeated;
    if rows != [] {
      var n := |rows| - 1;
      var front, r := rows[..n], rows[n];
      var fs := Families(fam, front);
      assert rows == front + [r];
      ContiguousFront(fam, rows);
      Reassemble(fam, front);
      AppendShape(fam, front, r);
      FamiliesFacts(fam, front);
      if fam(r) in fs {
        LastFamily(fam, rows);
        LastApart(fs);
        PlainAppend(fam, front, r, fs[..|fs| - 1]);
      } else {
        PlainAppend(fam, front, r, fs);
        assert (fs + [fam(r)])[..|fs|] == fs;
      }
    }
  }

  lemma ContiguousFront<T>(fam: T -> string, rows: seq<T>)
    requires Contiguous(fam, rows) && rows != []
    ensures Contiguous(fam, rows[..|rows| - 1])
  {
  }

  /** Lists that agree on families position by position. */
  ghost predicate Parallel<T>(fam: T -> string, xs: seq<T>, ys: seq<T>) {
    |xs| == |ys| && forall i :: 0 <= i < |xs| ==> fam(xs[i]) == fam(ys[i])
  }

  lemma {:induction false} ParallelShape<T>(fam: T -> string, xs: seq<T>, ys: seq<T>, f: string)
    requires Parallel(fam, xs, ys)
    ensures Families(fam, xs) == Families(fam, ys) && |Bucket(fam, xs, f)| == |Bucket(fam, ys, f)|
  {
    if xs != [] {
      ParallelShape(fam, xs[..|xs| - 1], ys[..|ys| - 1], f);
    }
  }

  // ---- rewriting rows in place ---------------------------------------------

  function Rewrite<T>(m: T -> T, rows: seq<T>): seq<T> {
    seq(|rows|, i requires 0 <= i < |rows| => m(rows[i]))
  }

  ghost predicate KeepsFamilies<T>(fam: T -> string, m: T -> T, rows: seq<T>) {
    forall i :: 0 <= i < |rows| ==> fam(m(rows[i])) == fam(rows[i])
  }

  lemma {:induction false} RewriteBucket<T>(fam: T -> string, m: T -> T, rows: seq<T>, f: string)
    requires KeepsFamilies(fam, m, rows)
    ensures Families(fam, Rewrite(m, rows)) == Families(fam, rows)
    ensures Bucket(fam, Rewrite(m, rows), f) == Rewrite(m, Bucket(fam, rows, f))
  {
    if rows != [] {
      var n := |rows| - 1;
      RewriteBucket(fam, m, rows[..n], f);
      assert Rewrite(m, rows)[..n] == Rewrite(m, rows[..n]);
    }
  }

  lemma RewriteNothing<T>(m: T -> T)
    ensures Rewrite(m, []) == []
  {
  }

  lemma RewriteConcat<T>(m: T -> T, xs: seq<T>, ys: seq<T>)
    ensures Rewrite(m, xs + ys) == Rewrite(m, xs) + Rewrite(m, ys)
  {
  }

  lemma {:induction false} RewriteGroup<T(!new)>(
    fam: T -> string, shrink: seq<T> -> seq<T>, m: T -> T, rows: seq<T>, families: seq<string>)
    requires KeepsFamilies(fam, m, rows)
    requires forall xs :: shrink(Rewrite(m, xs)) == Rewrite(m, shrink(xs))
    ensures Group(fam, shrink, Rewrite(m, rows), families) == Rewrite(m, Group(fam, shrink, rows, families))
  {
    hide Bucket, Rewrite, KeepsFamilies;
    if families == [] {
      assert Rewrite(m, []) == [] by { RewriteNothing(m); }
    } else {
      var n := |families| - 1;
      RewriteGroup(fam, shrink, m, rows, families[..n]);
      RewriteBucket(fam, m, rows, families[n]);
      RewriteConcat(m, Group(fam, shrink, rows, families[..n]), shrink(Bucket(fam, rows, families[n])));
    }
  }

  /** Rewriting rows inside their families commutes with regrouping. */
  lemma RewriteRegroup<T(!new)>(fam: T -> string, shrink: seq<T> -> seq<T>, m: T -> T, rows: seq<T>)
    requires KeepsFamilies(fam, m, rows)
    requires forall xs :: shrink(Rewrite(m, xs)) == Rewrite(m, shrink(xs))
    ensures Regroup(fam, shrink, Rewrite(m, rows)) == Rewrite(m, Regroup(fam, shrink, rows))
  {
    RewriteBucket(fam, m, rows, "");
    RewriteGroup(fam, shrink, m, rows, Families(fam, rows));
  }

  // ---- tails ---------------------------------------------------------------

  lemma TailFacts<T>(xs: seq<T>, n: int)
    requires n >= 0
    ensures xs != [] ==> Tail(xs, n) != []
    ensures Tail(Tail(xs, n), n) == Tail(xs, n)
    ensures n > 0 ==> |Tail(xs, n)| <= n
    ensures n == 0 || |xs| <= n ==> Tail(xs, n) == xs
    ensures Tail(xs, n) == xs[|xs| - |Tail(xs, n)|..]
  {
  }

  lemma TailAppend<T>(xs: seq<T>, x: T, n: int)
    requires n >= 0
    ensures Tail(Tail(xs, n) + [x], n) == Tail(xs + [x], n)
    ensures x in Tail(xs + [x], n)
  {
    var t := Tail(xs + [x], n);
    assert t[|t| - 1] == x;
  }

  // ---- sums over groups ----------------------------------------------------

  function Sum<T>(w: T -> nat, rows: seq<T>): nat {
    if rows == [] then 0 else Sum(w, rows[..|rows| - 1]) + w(rows[|rows| - 1])
  }

  /** The sum of each listed family's rows. */
  function SumFamilies<T>(fam: T -> string, w: T -> nat, rows: seq<T>, families: seq<string>): nat {
    if families == [] then 0
    else
      var n := |families| - 1;
      SumFamilies(fam, w, rows, families[..n]) + Sum(w, Bucket(fam, rows, families[n]))
  }

  lemma {:induction false} SumConcat<T>(w: T -> nat, xs: seq<T>, ys: seq<T>)
    ensures Sum(w, xs + ys) == Sum(w, xs) + Sum(w, ys)
  {
    if ys == [] {
      assert xs + ys == xs;
    } else {
      var n := |ys| - 1;
      SumConcat(w, xs, ys[..n]);
      assert (xs + ys)[..|xs + ys| - 1] == xs + ys[..n];
    }
  }

  lemma SumOne<T>(w: T -> nat, r: T)
    ensures Sum(w, [r]) == w(r)
  {
  }

  lemma {:induction false} SumFamiliesAppend<T>(
    fam: T -> string, w: T -> nat, rows: seq<T>, r: T, families: seq<string>)
    requires Unrepeated(families)
    ensures SumFamilies(fam, w, rows + [r], families)
         == SumFamilies(fam, w, rows, families) + (if fam(r) in families then w(r) else 0)
  {
    if families != [] {
      var n := |families| - 1;
      assert families == families[..n] + [families[n]];
      SumFamiliesAppend(fam, w, rows, r, families[..n]);
      AppendShape(fam, rows, r);
      SumConcat(w, Bucket(fam, rows, families[n]), [r]);
      SumOne(w, r);
    }
  }

  /** Summing family by family sums everything. */
  lemma {:induction false} SumPartition<T>(fam: T -> string, w: T -> nat, rows: seq<T>)
    ensures SumFamilies(fam, w, rows, Families(fam, rows)) == Sum(w, rows)
  {
    hide Bucket, SumFamilies, Unrepeated;
    if rows == [] {
      NoFamilies(fam, w);
    } else {
      var n := |rows| - 1;
      var front, r := rows[..n], rows[n];
      assert rows == front + [r];
      SumPartition(fam, w, front);
      FamiliesFacts(fam, front);
      AppendShape(fam, front, r);
      SumFamiliesAppend(fam, w, front, r, Families(fam, front));
      if fam(r) !in Families(fam, front) {
        NewFamily(fam, w, front, r);
      }
    }
  }

  lemma NoFamilies<T>(fam: T -> string, w: T -> nat)
    ensures SumFamilies(fam, w, [], []) == 0
  {
  }

  lemma NewFamily<T>(fam: T -> string, w: T -> nat, front: seq<T>, r: T)
    requires fam(r) !in Families(fam, front)
    ensures SumFamilies(fam, w, front + [r], Families(fam, front) + [fam(r)])
         == SumFamilies(fam, w, front + [r], Families(fam, front)) + w(r)
  {
    hide Bucket, Families, Sum, Unrepeated;
    var fs := Families(fam, front) + [fam(r)];
    assert fs[..|fs| - 1] == Families(fam, front);
    FamiliesFacts(fam, front);
    AppendShape(fam, front, r);
    assert Bucket(fam, front, fam(r)) + [r] == [r];
    SumOne(w, r);
  }

  /** A measure that every group preserves is preserved by grouping. */
  lemma {:induction false} SumGroup<T>(
    fam: T -> string, shrink: seq<T> -> seq<T>, after: T -> nat, before: T -> nat, rows: seq<T>, families: seq<string>)
    requires forall f :: f in families ==>
               Sum(after, shrink(Bucket(fam, rows, f))) == Sum(before, Bucket(fam, rows, f))
    ensures Sum(after, Group(fam, shrink, rows, families)) == SumFamilies(fam, before, rows, families)
  {
    if families != [] {
      var n := |families| - 1;
      assert families == families[..n] + [families[n]];
      SumGroup(fam, shrink, after, before, rows, families[..n]);
      SumConcat(after, Group(fam, shrink, rows, families[..n]), shrink(Bucket(fam, rows, families[n])));
    }
  }

  /** Pointwise smaller weights sum to less, and to the same only if nowhere smaller. */
  lemma {:induction false} SumCompare<T>(v: T -> nat, w: T -> nat, rows: seq<T>)
    requires forall x :: x in rows ==> v(x) <= w(x)
    ensures Sum(v, rows) <= Sum(w, rows)
    ensures Sum(v, rows) == Sum(w, rows) <==> forall x :: x in rows ==> v(x) == w(x)
  {
    if rows != [] {
      var n := |rows| - 1;
      assert rows == rows[..n] + [rows[n]];
      SumCompare(v, w, rows[..n]);
    }
  }

  /** The same for two lists, place by place. */
  lemma {:induction false} SumPointwise<T>(w: T -> nat, xs: seq<T>, ys: seq<T>)
    requires |xs| == |ys| && forall i :: 0 <= i < |xs| ==> w(xs[i]) <= w(ys[i])
    ensures Sum(w, xs) <= Sum(w, ys)
    ensures Sum(w, xs) == Sum(w, ys) <==> forall i :: 0 <= i < |xs| ==> w(xs[i]) == w(ys[i])
  {
    if xs != [] { SumPointwise(w, xs[..|xs| - 1], ys[..|ys| - 1]); }
  }

  lemma {:induction false} SumZero<T>(w: T -> nat, rows: seq<T>)
    ensures Sum(w, rows) == 0 <==> forall x :: x in rows ==> w(x) == 0
  {
    if rows != [] {
      var n := |rows| - 1;
      assert rows == rows[..n] + [rows[n]];
      SumZero(w, rows[..n]);
    }
  }

  /** If each group splits in two, so does the whole sum. */
  lemma {:induction false} SumGroupSplit<T>(
    fam: T -> string, whole: seq<T> -> seq<T>, head: seq<T> -> seq<T>, tail: seq<T> -> seq<T>,
    w: T -> nat, rows: seq<T>, families: seq<string>)
    requires forall f :: f in families ==>
               whole(Bucket(fam, rows, f)) == head(Bucket(fam, rows, f)) + tail(Bucket(fam, rows, f))
    ensures Sum(w, Group(fam, whole, rows, families))
         == Sum(w, Group(fam, head, rows, families)) + Sum(w, Group(fam, tail, rows, families))
  {
    if families != [] {
      var n := |families| - 1;
      var b := Bucket(fam, rows, families[n]);
      assert families == families[..n] + [families[n]];
      SumGroupSplit(fam, whole, head, tail, w, rows, families[..n]);
      SumConcat(w, Group(fam, whole, rows, families[..n]), whole(b));
      SumConcat(w, Group(fam, head, rows, families[..n]), head(b));
      SumConcat(w, Group(fam, tail, rows, families[..n]), tail(b));
      SumConcat(w, head(b), tail(b));
    }
  }

  /** Rewriting a single position moves the sum by the difference there. */
  lemma {:induction false} SumRewriteOne<T>(w: T -> nat, m: T -> T, rows: seq<T>, i: nat)
    requires i < |rows| && forall j :: 0 <= j < |rows| && j != i ==> m(rows[j]) == rows[j]
    ensures Sum(w, Rewrite(m, rows)) + w(rows[i]) == Sum(w, rows) + w(m(rows[i]))
    decreases |rows|
  {
    var n := |rows| - 1;
    assert Rewrite(m, rows)[..n] == Rewrite(m, rows[..n]);
    if i == n {
      assert Rewrite(m, rows[..n]) == rows[..n];
    } else {
      SumRewriteOne(w, m, rows[..n], i);
    }
  }
}
