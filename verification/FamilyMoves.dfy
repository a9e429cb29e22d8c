/** Corrections that move a row to another family: exactly when compacting after the
    append still gives what compacting the whole history gives. */
module FamilyMoves {
  import opened Json
  import opened Grouping
  import opened FamilyRegistry

  // ---- families of joined lists --------------------------------------------

  /** What is not known yet. */
  function Sift(fs: seq<string>, known: set<string>): seq<string> {
    if fs == [] then []
    else
      var n := |fs| - 1;
      Sift(fs[..n], known) + if fs[n] in known then [] else [fs[n]]
  }

  function Elements(fs: seq<string>): set<string> { set i | 0 <= i < |fs| :: fs[i] }

  lemma {:induction false} SiftJoin(fs: seq<string>, gs: seq<string>, known: set<string>)
    ensures Sift(fs + gs, known) == Sift(fs, known) + Sift(gs, known)
  {
    if gs == [] {
      assert fs + gs == fs;
    } else {
      var n := |gs| - 1;
      assert (fs + gs)[..|fs| + n] == fs + gs[..n];
      SiftJoin(fs, gs[..n], known);
    }
  }

  lemma {:induction false} SiftFacts(fs: seq<string>, known: set<string>)
    ensures forall f :: f in Sift(fs, known) <==> f in fs && f !in known
    ensures (forall f :: f in fs ==> f !in known) ==> Sift(fs, known) == fs
    ensures (forall f :: f in fs ==> f in known) ==> Sift(fs, known) == []
  {
    if fs != [] {
      var n := |fs| - 1;
      assert fs == fs[..n] + [fs[n]];
      SiftFacts(fs[..n], known);
    }
  }

  lemma {:induction false} SiftTwice(fs: seq<string>, known: set<string>, more: set<string>)
    ensures Sift(Sift(fs, known), more) == Sift(fs, known + more)
  {
    if fs != [] {
      var n := |fs| - 1;
      SiftTwice(fs[..n], known, more);
      SiftJoin(Sift(fs[..n], known), if fs[n] in known then [] else [fs[n]], more);
    }
  }

  lemma SiftOne(fs: seq<string>, f: string, known: set<string>)
    ensures Sift(fs + [f], known) == Sift(fs, known) + if f in known then [] else [f]
  {
    assert (fs + [f])[..|fs|] == fs;
  }

  lemma ElementsAre(fs: seq<string>)
    ensures forall f :: f in Elements(fs) <==> f in fs
  {
  }

  /** The families of a joined list: those of the first part, then the new ones. */
  lemma {:induction false} FamiliesJoin<T>(fam: T -> string, xs: seq<T>, ys: seq<T>)
    ensures Families(fam, xs + ys) == Families(fam, xs) + Sift(Families(fam, ys), Elements(Families(fam, xs)))
  {
    hide Sift, Elements, Families;
    var known := Elements(Families(fam, xs));
    if ys == [] {
      assert xs + ys == xs;
      assert Families(fam, ys) == [] && Sift([], known) == [] by { NothingNew(fam, known); }
    } else {
      var n := |ys| - 1;
      var front, f := Families(fam, ys[..n]), fam(ys[n]);
      assert ys == ys[..n] + [ys[n]] && xs + ys == (xs + ys[..n]) + [ys[n]];
      FamiliesJoin(fam, xs, ys[..n]);
      AppendShape(fam, xs + ys[..n], ys[n]);
      AppendShape(fam, ys[..n], ys[n]);
      SiftFacts(front, known);
      SiftOne(front, f, known);
      ElementsAre(Families(fam, xs));
    }
  }

  lemma NothingNew<T>(fam: T -> string, known: set<string>)
    ensures Families(fam, []) == [] && Sift([], known) == []
  {
  }

  lemma {:induction false} GroupJoin<T>(
    fam: T -> string, shrink: seq<T> -> seq<T>, rows: seq<T>, fs: seq<string>, gs: seq<string>)
    ensures Group(fam, shrink, rows, fs + gs) == Group(fam, shrink, rows, fs) + Group(fam, shrink, rows, gs)
  {
    if gs == [] {
      assert fs + gs == fs;
    } else {
      var n := |gs| - 1;
      assert (fs + gs)[..|fs| + n] == fs + gs[..n];
      GroupJoin(fam, shrink, rows, fs, gs[..n]);
    }
  }

  lemma BucketRegrouped<T(!new)>(fam: T -> string, shrink: seq<T> -> seq<T>, xs: seq<T>, f: string)
    requires Shrinks(fam, shrink) && shrink([]) == []
    ensures Bucket(fam, Regroup(fam, shrink, xs), f) == shrink(Bucket(fam, xs, f))
  {
    hide Bucket, Families, Group, Regroup, Shrinks;
    RegroupShape(fam, shrink, xs, f);
    FamiliesFacts(fam, xs);
  }

  ghost predicate SameShares<T(!new)>(fam: T -> string, shrink: seq<T> -> seq<T>, xs: seq<T>, ys: seq<T>) {
    forall f :: shrink(Bucket(fam, xs, f)) == shrink(Bucket(fam, ys, f))
  }

  /** Two lists regroup alike exactly when they have the same families in the same
      order and shrink to the same rows in each. */
  lemma {:induction false} RegroupSameIff<T(!new)>(fam: T -> string, shrink: seq<T> -> seq<T>, xs: seq<T>, ys: seq<T>)
    requires Shrinks(fam, shrink) && shrink([]) == []
    ensures Regroup(fam, shrink, xs) == Regroup(fam, shrink, ys) <==>
            Families(fam, xs) == Families(fam, ys) && SameShares(fam, shrink, xs, ys)
  {
    hide Bucket, Families, Group, Regroup, Shrinks;
    RegroupMeans(fam, shrink, xs);
    RegroupMeans(fam, shrink, ys);
    if Regroup(fam, shrink, xs) == Regroup(fam, shrink, ys) {
      RegroupShape(fam, shrink, xs, "");
      RegroupShape(fam, shrink, ys, "");
      forall f ensures shrink(Bucket(fam, xs, f)) == shrink(Bucket(fam, ys, f)) {
        BucketRegrouped(fam, shrink, xs, f);
        BucketRegrouped(fam, shrink, ys, f);
      }
    } else if Families(fam, xs) == Families(fam, ys) && SameShares(fam, shrink, xs, ys) {
      GroupCongruence(fam, shrink, xs, ys, Families(fam, xs));
      assert false;
    }
  }

  lemma RegroupMeans<T>(fam: T -> string, shrink: seq<T> -> seq<T>, xs: seq<T>)
    ensures Regroup(fam, shrink, xs) == Group(fam, shrink, xs, Families(fam, xs))
  {
  }

  // ---- one row changes family ----------------------------------------------

  /** A list around one row, and the row that takes its place. */
  datatype Move<T> = Move(left: seq<T>, was: T, right: seq<T>, now: T) {
    function Before(): seq<T> { left + [was] + right }
    function After(): seq<T> { left + [now] + right }
  }

  ghost predicate Moves<T>(fam: T -> string, v: Move<T>) {
    fam(v.was) != fam(v.now) && v.was !in v.left + v.right && v.now !in v.left + v.right
  }

  /** Of two families the first appears before the second. */
  predicate Earlier(fs: seq<string>, g: string, f: string) { f in fs && g in fs[..Rank(fs, f)] }

  /** The rows of the family that takes the row in: if it comes first, none may follow
      the row; otherwise none may precede it, unless the bound cuts it off. */
  ghost predicate RowsSettle<T>(fam: T -> string, v: Move<T>, bound: int) {
    var f, g := fam(v.was), fam(v.now);
    if Earlier(Families(fam, v.Before()), g, f) then Bucket(fam, v.right, g) == []
    else Bucket(fam, v.left, g) == [] || (bound > 0 && |Bucket(fam, v.right, g)| >= bound)
  }

  /** The order of families: where the old family stays ahead, nothing may appear
      between it and the new one; where it reappears later, nothing but the new one may
      appear before that. */
  ghost predicate FamiliesSettle<T>(fam: T -> string, v: Move<T>) {
    var f, g := fam(v.was), fam(v.now);
    var ls, rs := Families(fam, v.left), Families(fam, v.right);
    if f in ls then
      var k := Rank(ls, f);
      k + 1 >= |ls| || g in ls[..k + 2]
    else f in rs ==> forall h :: h in rs[..Rank(rs, f)] ==> h in ls || h == g
  }

  lemma BucketsAround<T>(fam: T -> string, xs: seq<T>, y: T, zs: seq<T>, h: string)
    ensures Bucket(fam, xs + [y] + zs, h)
         == Bucket(fam, xs, h) + (if fam(y) == h then [y] else []) + Bucket(fam, zs, h)
  {
    BucketConcat(fam, xs + [y], zs, h);
    BucketConcat(fam, xs, [y], h);
    assert [y][..0] == [];
  }

  lemma FamiliesAround<T>(fam: T -> string, xs: seq<T>, y: T, zs: seq<T>)
    ensures Families(fam, xs + [y] + zs)
         == Families(fam, xs) + Sift([fam(y)], Elements(Families(fam, xs)))
            + Sift(Families(fam, zs), Elements(Families(fam, xs)) + {fam(y)})
  {
    hide Families, Sift, Elements;
    FamiliesJoin(fam, xs + [y], zs);
    FamiliesJoin(fam, xs, [y]);
    assert Families(fam, [y]) == [fam(y)] by { OneFamily(fam, y); }
    ElementsPlus(Families(fam, xs), fam(y));
  }

  lemma OneFamily<T>(fam: T -> string, y: T)
    ensures Families(fam, [y]) == [fam(y)]
  {
    assert [y][..0] == [];
  }

  lemma ElementsPlus(fs: seq<string>, f: string)
    ensures Elements(fs + Sift([f], Elements(fs))) == Elements(fs) + {f}
  {
    SiftFacts([f], Elements(fs));
    var gs := fs + Sift([f], Elements(fs));
    assert forall x :: x in gs <==> x in fs || x == f;
    assert forall x :: x in Elements(gs) <==> x in gs;
    assert forall x :: x in Elements(fs) <==> x in fs;
  }

  // ---- the order of families -----------------------------------------------

  lemma {:induction false} SiftAgree(fs: seq<string>, known: set<string>, known': set<string>)
    requires forall f :: f in fs ==> (f in known <==> f in known')
    ensures Sift(fs, known) == Sift(fs, known')
  {
    if fs != [] {
      var n := |fs| - 1;
      assert fs == fs[..n] + [fs[n]];
      SiftAgree(fs[..n], known, known');
    }
  }

  lemma SplitAt(fs: seq<string>, f: string)
    requires f in fs && Unrepeated(fs)
    ensures var k := Rank(fs, f); k < |fs| && fs == fs[..k] + [f] + fs[k + 1..] && f !in fs[..k] && f !in fs[k + 1..]
    ensures Unrepeated(fs[..Rank(fs, f)]) && Unrepeated(fs[Rank(fs, f) + 1..])
    ensures forall h :: h in fs[..Rank(fs, f)] ==> h !in fs[Rank(fs, f) + 1..]
  {
    hide Rank;
    assert fs == fs[..Rank(fs, f)] + fs[Rank(fs, f)..];
  }

  /** A new name stands at the front of a list as it does at its end. */
  lemma FrontOrBack(zs: seq<string>, g: string)
    requires Unrepeated(zs)
    ensures zs + Sift([g], Elements(zs)) == [g] + Sift(zs, {g}) <==> zs == [] || zs[0] == g
  {
    hide Sift, Elements;
    ElementsAre(zs);
    SiftFacts([g], Elements(zs));
    SiftFacts(zs, {g});
    var a, b := zs + Sift([g], Elements(zs)), [g] + Sift(zs, {g});
    if zs != [] {
      assert a[0] == zs[0] && b[0] == g;
      if zs[0] == g {
        assert zs == [g] + zs[1..];
        SiftJoin([g], zs[1..], {g});
        SiftFacts([g], {g});
        SiftFacts(zs[1..], {g});
        assert Sift([g], {g}) == [] && Sift(zs[1..], {g}) == zs[1..];
      }
    }
  }

  /** Behind the old family, the new name comes at once or after what began since. */
  lemma {:induction false} TakenInIff(cl: seq<string>, zs: seq<string>, g: string)
    requires Unrepeated(zs) && forall h :: h in zs ==> h !in cl
    ensures zs + Sift([g], Elements(cl + zs)) == Sift([g], Elements(cl)) + Sift(zs, {g}) <==>
            zs == [] || g in cl || g == zs[0]
  {
    hide Sift, Elements;
    ElementsAre(cl + zs);
    ElementsAre(cl);
    ElementsAre(zs);
    SiftFacts([g], Elements(cl + zs));
    SiftFacts([g], Elements(cl));
    SiftFacts(zs, {g});
    if g !in cl {
      assert Sift([g], Elements(cl)) == [g];
      SiftAgree([g], Elements(cl + zs), Elements(zs));
      FrontOrBack(zs, g);
    }
  }

  /** The old family stays ahead: what began between it and the row. */
  lemma {:induction false} AheadIff(ls: seq<string>, rs: seq<string>, f: string, g: string, cr: seq<string>)
    requires Unrepeated(ls) && f in ls && f != g
    requires var k := Rank(ls, f); var z2 := Sift(rs, Elements(ls));
             Sift(cr, Elements(ls[..k + 1]) + {g}) == Sift(ls[k + 1..], {g}) + Sift(z2, {g})
    ensures var k := Rank(ls, f); var cl := ls[..k + 1];
            ls + Sift([g], Elements(ls)) + Sift(rs, Elements(ls) + {g})
            == cl + Sift([g], Elements(cl)) + Sift(cr, Elements(cl) + {g})
            <==> k + 1 >= |ls| || g in ls[..k + 2]
  {
    hide Sift, Elements, Rank;
    var k := Rank(ls, f);
    SplitAt(ls, f);
    var cl, z1, tail := ls[..k + 1], ls[k + 1..], Sift(Sift(rs, Elements(ls)), {g});
    assert ls == cl + z1;
    SiftTwice(rs, Elements(ls), {g});
    var a, b := z1 + Sift([g], Elements(ls)), Sift([g], Elements(cl)) + Sift(z1, {g});
    assert ls + Sift([g], Elements(ls)) + Sift(rs, Elements(ls) + {g}) == cl + (a + tail);
    assert cl + Sift([g], Elements(cl)) + Sift(cr, Elements(cl) + {g}) == cl + (b + tail);
    Cancel(cl, a, b, tail);
    assert cl == ls[..k] + [f];
    TakenInIff(cl, z1, g);
    if z1 != [] { assert ls[..k + 2] == cl + [z1[0]]; }
  }

  lemma Cancel(p: seq<string>, a: seq<string>, b: seq<string>, s: seq<string>)
    ensures p + (a + s) == p + (b + s) <==> a == b
  {
    if p + (a + s) == p + (b + s) {
      assert (p + (a + s))[|p|..] == a + s && (p + (b + s))[|p|..] == b + s;
      assert (a + s)[..|a|] == a && (b + s)[..|b|] == b && |a| == |b|;
    }
  }

  /** Sifting around one name. */
  lemma {:induction false} SiftAround(rs: seq<string>, f: string, known: set<string>)
    requires Unrepeated(rs) && f in rs
    ensures var k := Rank(rs, f);
      && Sift(rs, known) == Sift(rs[..k], known) + (if f in known then [] else [f]) + Sift(rs[k + 1..], known)
      && Sift(rs, known + {f}) == Sift(rs[..k], known) + Sift(rs[k + 1..], known)
  {
    hide Sift, Rank;
    SplitAt(rs, f);
    var k := Rank(rs, f);
    SiftJoin(rs[..k], [f], known);
    SiftJoin(rs[..k] + [f], rs[k + 1..], known);
    SiftFacts([f], known);
    SiftTwice(rs, known, {f});
    SiftFacts([f], {f});
    SiftTwice(rs[..k], known, {f});
    SiftTwice(rs[k + 1..], known, {f});
    SiftAgree(rs[..k], known + {f}, known);
    SiftAgree(rs[k + 1..], known + {f}, known);
    SiftJoin(rs[..k], [f], known + {f});
    SiftJoin(rs[..k] + [f], rs[k + 1..], known + {f});
    SiftFacts([f], known + {f});
  }

  /** The old family reappears later, or not at all: what begins before it does. */
  lemma {:induction false} LaterIff(ls: seq<string>, rs: seq<string>, f: string, g: string)
    requires Unrepeated(rs) && f !in ls && f != g
    ensures var cr := (if f in rs then [f] else []) + Sift(rs, Elements(ls) + {f});
            ls + Sift([g], Elements(ls)) + Sift(rs, Elements(ls) + {g})
            == ls + Sift([g], Elements(ls)) + Sift(cr, Elements(ls) + {g})
            <==> (f in rs ==> forall h :: h in rs[..Rank(rs, f)] ==> h in ls || h == g)
  {
    hide Sift, Elements, Rank;
    var known, p := Elements(ls) + {g}, ls + Sift([g], Elements(ls));
    var z := Sift(rs, Elements(ls) + {f});
    ElementsAre(ls);
    SiftTwice(rs, Elements(ls) + {f}, {g});
    assert Elements(ls) + {f} + {g} == known + {f};
    SiftAgree(z, known, {g}) by { SiftFacts(rs, Elements(ls) + {f}); }
    if f in rs {
      var k := Rank(rs, f);
      SiftAround(rs, f, known);
      SiftFacts(rs[..k], known);
      SiftJoin([f], z, known);
      SiftFacts([f], known);
      Shifted(p, Sift(rs[..k], known), f, Sift(rs[k + 1..], known));
    } else {
      SiftAgree(rs, known + {f}, known);
      assert [] + z == z;
    }
  }

  lemma Shifted(p: seq<string>, s: seq<string>, f: string, t: seq<string>)
    requires f !in s
    ensures p + (s + [f] + t) == p + ([f] + s + t) <==> s == []
  {
    if s != [] {
      assert (p + (s + [f] + t))[|p|] == s[0] && (p + ([f] + s + t))[|p|] == f;
    }
  }

  // ---- the rows of the new family ------------------------------------------

  /** Where a row taken into a family ends up. */
  lemma BehindIff<T>(ps: seq<T>, x: T, qs: seq<T>, n: int)
    requires n >= 0 && x !in ps + qs
    ensures Tail(ps + [x] + qs, n) == Tail(Tail(ps + qs, n) + [x], n) <==> qs == []
  {
    var a, b := Tail(ps + [x] + qs, n), Tail(Tail(ps + qs, n) + [x], n);
    assert b[|b| - 1] == x;
    if qs == [] {
      assert ps + [x] + qs == ps + [x] && ps + qs == ps;
      TailAppend(ps, x, n);
    } else {
      assert a[|a| - 1] == qs[|qs| - 1] && qs[|qs| - 1] in ps + qs;
    }
  }

  lemma AheadOfIff<T>(ps: seq<T>, x: T, qs: seq<T>, n: int)
    requires n >= 0 && x !in ps + qs
    ensures Tail(ps + [x] + qs, n) == Tail([x] + Tail(ps + qs, n), n) <==> ps == [] || (n > 0 && |qs| >= n)
  {
    hide Tail;
    if ps == [] {
      assert ps + [x] + qs == [x] + qs && ps + qs == qs;
      TailOfFirst(x, qs, n);
    } else if n > 0 && |qs| >= n {
      TailOfLast(ps + [x], qs, n);
      TailOfLast(ps, qs, n);
      TailOfFirst(x, qs, n);
      TailOfLast([x], qs, n);
    } else {
      NotAhead(ps, x, qs, n);
    }
  }

  lemma TailOfFirst<T>(x: T, xs: seq<T>, n: int)
    requires n >= 0
    ensures Tail([x] + xs, n) == Tail([x] + Tail(xs, n), n)
  {
  }

  lemma TailOfLast<T>(xs: seq<T>, ys: seq<T>, n: int)
    requires n > 0 && |ys| >= n
    ensures Tail(xs + ys, n) == Tail(ys, n)
  {
  }

  /** A row with others before it that the bound does not cut off. */
  lemma NotAhead<T>(ps: seq<T>, x: T, qs: seq<T>, n: int)
    requires n >= 0 && x !in ps + qs && ps != [] && (n == 0 || |qs| < n)
    ensures Tail(ps + [x] + qs, n) != Tail([x] + Tail(ps + qs, n), n)
  {
    var a := Tail(ps + [x] + qs, n);
    assert a[|a| - |qs| - 1] == x && x in a;
    TailIn(ps + qs, n);
    if n > 0 && |ps + qs| >= n {
      assert Tail([x] + Tail(ps + qs, n), n) == Tail(ps + qs, n);
    } else {
      assert Tail([x] + Tail(ps + qs, n), n) == [x] + (ps + qs) && a == ps + [x] + qs;
      assert a[0] == ps[0] == (ps + qs)[0];
    }
  }

  lemma TailIn<T>(xs: seq<T>, n: int)
    ensures forall x :: x in Tail(xs, n) ==> x in xs
  {
  }

  // ---- moving a row that is still kept -------------------------------------

  /** The old family's rows are all within the bound. */
  predicate Fits(z: Settings, v: Move<Object>) {
    z.maxRows == 0 || |Bucket(Fam(z), v.Before(), Fam(z)(v.was))| <= z.maxRows
  }

  /** The same move, seen in the compacted list. */
  function Shelved(z: Settings, v: Move<Object>): Move<Object> {
    var fam, f, fs := Fam(z), Fam(z)(v.was), Families(Fam(z), v.Before());
    var k := Rank(fs, f);
    Move(Group(fam, Last(z), v.Before(), fs[..k]) + Bucket(fam, v.left, f), v.was,
         Bucket(fam, v.right, f) + if k < |fs| then Group(fam, Last(z), v.Before(), fs[k + 1..]) else [], v.now)
  }

  lemma FamilyPresent(fam: Object -> string, v: Move<Object>)
    ensures fam(v.was) in Families(fam, v.Before())
  {
    hide Families, Bucket;
    FamiliesFacts(fam, v.Before());
    BucketsAround(fam, v.left, v.was, v.right, fam(v.was));
  }

  lemma {:induction false} ShelvedIs(z: Settings, v: Move<Object>)
    requires z.maxRows >= 0 && Fits(z, v)
    ensures Shelve(z, v.Before()) == Shelved(z, v).Before()
  {
    hide Families, Bucket, Group, Fam, Rank, Regroup;
    var xs, fam, f := v.Before(), Fam(z), Fam(z)(v.was);
    var fs := Families(fam, xs);
    FamilyPresent(fam, v);
    FamiliesFacts(fam, xs);
    SplitAt(fs, f);
    var k := Rank(fs, f);
    RegroupMeans(fam, Last(z), xs);
    GroupJoin(fam, Last(z), xs, fs[..k] + [f], fs[k + 1..]);
    GroupJoin(fam, Last(z), xs, fs[..k], [f]);
    GroupAlone(fam, Last(z), xs, f);
    BucketsAround(fam, v.left, v.was, v.right, f);
    TailFacts(Bucket(fam, xs, f), z.maxRows);
  }

  lemma GroupAlone(fam: Object -> string, shrink: seq<Object> -> seq<Object>, rows: seq<Object>, f: string)
    ensures Group(fam, shrink, rows, [f]) == shrink(Bucket(fam, rows, f))
  {
    assert [f][..0] == [];
  }

  /** A part of the compacted list has just its own families. */
  lemma {:induction false} PartFamilies(z: Settings, xs: seq<Object>, fs: seq<string>, h: string)
    requires z.maxRows >= 0 && Unrepeated(fs) && forall f :: f in fs ==> f in Families(Fam(z), xs)
    ensures Families(Fam(z), Group(Fam(z), Last(z), xs, fs)) == fs
    ensures Bucket(Fam(z), Group(Fam(z), Last(z), xs, fs), h) == if h in fs then Last(z)(Bucket(Fam(z), xs, h)) else []
  {
    hide Families, Bucket, Group, Fam, Unrepeated;
    LastShrinks(z);
    FamiliesFacts(Fam(z), xs);
    GroupFamilies(Fam(z), Last(z), xs, fs);
    GroupBuckets(Fam(z), Last(z), xs, fs, h);
  }

  /** The families on either side of the row in the compacted list. */
  lemma {:induction false} ShelvedFamilies(z: Settings, v: Move<Object>)
    requires z.maxRows >= 0
    ensures var fs := Families(Fam(z), v.Before()); var f := Fam(z)(v.was); var k := Rank(fs, f);
      && k < |fs|
      && Families(Fam(z), Shelved(z, v).left) == fs[..k] + (if f in Families(Fam(z), v.left) then [f] else [])
      && Families(Fam(z), Shelved(z, v).right) == (if f in Families(Fam(z), v.right) then [f] else []) + fs[k + 1..]
  {
    hide Families, Bucket, Group, Fam, Rank, Unrepeated, Sift, Elements;
    var fam, f, xs := Fam(z), Fam(z)(v.was), v.Before();
    var fs := Families(fam, xs);
    FamilyPresent(fam, v);
    FamiliesFacts(fam, xs);
    SplitAt(fs, f);
    var k := Rank(fs, f);
    var a, b := Group(fam, Last(z), xs, fs[..k]), Group(fam, Last(z), xs, fs[k + 1..]);
    PartFamilies(z, xs, fs[..k], f);
    PartFamilies(z, xs, fs[k + 1..], f);
    BlockFamilies(fam, v.left, f);
    BlockFamilies(fam, v.right, f);
    FamiliesJoin(fam, a, Bucket(fam, v.left, f));
    FamiliesJoin(fam, Bucket(fam, v.right, f), b);
    ElementsAre(fs[..k]);
    SiftFacts([f], Elements(fs[..k]));
    SiftFacts([], Elements(fs[..k]));
    ElementsAre([f]);
    ElementsAre([]);
    SiftFacts(fs[k + 1..], Elements([f]));
    SiftFacts(fs[k + 1..], Elements([]));
  }

  lemma {:induction false} BlockFamilies(fam: Object -> string, rows: seq<Object>, f: string)
    ensures Families(fam, Bucket(fam, rows, f)) == if f in Families(fam, rows) then [f] else []
  {
    hide Families, Bucket;
    var b := Bucket(fam, rows, f);
    FamiliesFacts(fam, rows);
    BucketUniform(fam, rows, f);
    EmptyBucket(fam, f);
    if b != [] {
      FamiliesConcat(fam, [], b, f);
      assert [] + b == b && [] + [f] == [f];
    }
  }

  /** The families come out alike exactly when they settle. */
  lemma {:induction false} OrderIff(z: Settings, v: Move<Object>)
    requires z.maxRows >= 0 && Moves(Fam(z), v)
    ensures Families(Fam(z), v.After()) == Families(Fam(z), Shelved(z, v).After()) <==> FamiliesSettle(Fam(z), v)
  {
    hide Families, Fam, Rank, Unrepeated, Sift, Elements, Shelved;
    var fam, f, g := Fam(z), Fam(z)(v.was), Fam(z)(v.now);
    var ls, rs, fs := Families(fam, v.left), Families(fam, v.right), Families(fam, v.Before());
    var c := Shelved(z, v);
    assert c.now == v.now by { SameRow(z, v); }
    FamiliesFacts(fam, v.left);
    FamiliesFacts(fam, v.right);
    FamiliesFacts(fam, v.Before());
    FamiliesAround(fam, v.left, v.now, v.right);
    FamiliesAround(fam, c.left, v.now, c.right);
    FamiliesAround(fam, v.left, v.was, v.right);
    ShelvedFamilies(z, v);
    ElementsAre(ls);
    SiftFacts([f], Elements(ls));
    if f in ls {
      AheadCase(ls, rs, f, g, fs, Families(fam, c.right));
    } else {
      assert fs == ls + [f] + Sift(rs, Elements(ls) + {f});
      FirstPlace(ls, f, Sift(rs, Elements(ls) + {f}));
      assert Families(fam, c.left) == ls;
      LaterIff(ls, rs, f, g);
    }
  }

  lemma SameRow(z: Settings, v: Move<Object>)
    ensures Shelved(z, v).now == v.now && Shelved(z, v).was == v.was
  {
  }

  lemma FirstPlace(ls: seq<string>, f: string, zs: seq<string>)
    requires f !in ls
    ensures var fs := ls + [f] + zs; Rank(fs, f) == |ls| && fs[..|ls|] == ls && fs[|ls| + 1..] == zs
  {
    hide Rank;
    var fs := ls + [f] + zs;
    var k := Rank(fs, f);
    assert fs[|ls|] == f && forall i :: 0 <= i < |ls| ==> fs[i] == ls[i];
    assert k <= |ls| by { assert forall i :: 0 <= i < k ==> fs[..k][i] == fs[i]; }
  }

  /** Where the old family stands ahead, the whole list splits behind it. */
  lemma {:induction false} SplitBehind(ls: seq<string>, z2: seq<string>, f: string)
    requires Unrepeated(ls + z2) && f in ls
    ensures var fs, k := ls + z2, Rank(ls, f);
      && Unrepeated(ls) && k < |ls| && Rank(fs, f) == k && fs[..k] + [f] == ls[..k + 1]
      && fs[k + 1..] == ls[k + 1..] + z2 && f in ls[..k + 1]
  {
    hide Rank;
    assert forall i :: 0 <= i < |ls| ==> (ls + z2)[i] == ls[i];
    SplitAt(ls, f);
    var k := Rank(ls, f);
    assert ls + z2 == ls[..k] + [f] + (ls[k + 1..] + z2);
    FirstPlace(ls[..k], f, ls[k + 1..] + z2);
    assert ls[..k + 1] == ls[..k] + [f];
  }

  lemma {:induction false} SiftBehind(cl: seq<string>, rest: seq<string>, f: string, g: string)
    requires Unrepeated(cl + rest) && f in cl
    ensures Sift([f] + rest, Elements(cl) + {g}) == Sift(rest, {g}) == Sift([] + rest, Elements(cl) + {g})
  {
    hide Sift, Elements;
    ElementsAre(cl);
    var known := Elements(cl) + {g};
    SiftJoin([f], rest, known);
    SiftFacts([f], known);
    BehindFresh(cl, rest);
    SiftAgree(rest, known, {g});
    assert [] + rest == rest && [] + Sift(rest, known) == Sift(rest, known);
  }

  lemma {:induction false} AheadCase(ls: seq<string>, rs: seq<string>, f: string, g: string, fs: seq<string>, cr: seq<string>)
    requires Unrepeated(fs) && f in ls && f != g
    requires fs == ls + [] + Sift(rs, Elements(ls) + {f})
    requires var k := Rank(fs, f); k < |fs| && (cr == [f] + fs[k + 1..] || cr == [] + fs[k + 1..])
    ensures var cl := fs[..Rank(fs, f)] + [f];
            ls + Sift([g], Elements(ls)) + Sift(rs, Elements(ls) + {g})
            == cl + Sift([g], Elements(cl)) + Sift(cr, Elements(cl) + {g})
            <==> Rank(ls, f) + 1 >= |ls| || g in ls[..Rank(ls, f) + 2]
  {
    hide Rank, Sift, Elements, Unrepeated;
    var k, z2 := Rank(ls, f), Sift(rs, Elements(ls));
    ElementsAre(ls);
    SiftAgree(rs, Elements(ls) + {f}, Elements(ls));
    assert fs == ls + z2;
    SplitBehind(ls, z2, f);
    var cl, rest := ls[..k + 1], ls[k + 1..] + z2;
    assert fs == cl + rest;
    SiftBehind(cl, rest, f, g);
    SiftJoin(ls[k + 1..], z2, {g});
    AheadIff(ls, rs, f, g, cr);
  }

  lemma BehindFresh(xs: seq<string>, ys: seq<string>)
    requires Unrepeated(xs + ys)
    ensures forall h :: h in ys ==> h !in xs
  {
    forall h | h in ys ensures h !in xs {
      var j :| 0 <= j < |ys| && ys[j] == h;
      assert (xs + ys)[|xs| + j] == h && forall i :: 0 <= i < |xs| ==> (xs + ys)[i] == xs[i];
    }
  }

  /** What stands on either side of the row in the compacted list. */
  lemma {:induction false} ShelvedSides(z: Settings, v: Move<Object>, h: string)
    requires z.maxRows >= 0
    ensures var fam, f, fs := Fam(z), Fam(z)(v.was), Families(Fam(z), v.Before());
            var k, c, whole := Rank(fs, f), Shelved(z, v), Last(z)(Bucket(fam, v.Before(), h));
      && k < |fs|
      && Bucket(fam, c.left, h) == (if h == f then Bucket(fam, v.left, f) else if h in fs[..k] then whole else [])
      && Bucket(fam, c.right, h) == (if h == f then Bucket(fam, v.right, f) else if h in fs[k + 1..] then whole else [])
  {
    hide Families, Bucket, Group, Fam, Rank, Unrepeated, Last;
    var fam, f, xs := Fam(z), Fam(z)(v.was), v.Before();
    var fs := Families(fam, xs);
    FamilyPresent(fam, v);
    FamiliesFacts(fam, xs);
    SplitAt(fs, f);
    var k := Rank(fs, f);
    var a, b := Group(fam, Last(z), xs, fs[..k]), Group(fam, Last(z), xs, fs[k + 1..]);
    var u, w := Bucket(fam, v.left, f), Bucket(fam, v.right, f);
    PartFamilies(z, xs, fs[..k], h);
    PartFamilies(z, xs, fs[k + 1..], h);
    OwnBucket(fam, v.left, f, h);
    OwnBucket(fam, v.right, f, h);
    BucketConcat(fam, a, u, h);
    BucketConcat(fam, w, b, h);
  }

  lemma OwnBucket(fam: Object -> string, rows: seq<Object>, f: string, h: string)
    ensures Bucket(fam, Bucket(fam, rows, f), h) == if h == f then Bucket(fam, rows, f) else []
  {
    hide Bucket;
    BucketUniform(fam, rows, f);
    BucketUniform(fam, Bucket(fam, rows, f), f);
  }

  /** What each family is left with, in the history and in the compacted list. */
  lemma {:induction false} ShelvedShares(z: Settings, v: Move<Object>, h: string)
    requires z.maxRows >= 0 && Moves(Fam(z), v)
    ensures var fam, f, g := Fam(z), Fam(z)(v.was), Fam(z)(v.now);
            var here, there := Bucket(fam, v.After(), h), Bucket(fam, Shelved(z, v).After(), h);
            var whole := Bucket(fam, v.Before(), h);
      && (h == f ==> here == there)
      && (h != f && h != g ==> here == whole && there == Last(z)(whole))
      && (h == g ==> there == if Earlier(Families(fam, v.Before()), g, f) then Last(z)(whole) + [v.now] else [v.now] + Last(z)(whole))
  {
    hide Families, Bucket, Fam, Rank, Last, Shelved, Unrepeated;
    var fam, f, c := Fam(z), Fam(z)(v.was), Shelved(z, v);
    SameRow(z, v);
    ShelvedSides(z, v, h);
    BucketsAround(fam, c.left, v.now, c.right, h);
    if h == f {
      BucketsAround(fam, v.left, v.now, v.right, h);
    } else {
      OtherShares(z, v, h);
      if h != fam(v.now) {
        BucketsAround(fam, v.left, v.was, v.right, h);
        BucketsAround(fam, v.left, v.now, v.right, h);
      }
    }
  }

  /** Another family's rows stand on one side of the old family, if anywhere. */
  lemma {:induction false} OtherShares(z: Settings, v: Move<Object>, h: string)
    requires z.maxRows >= 0 && h != Fam(z)(v.was)
    ensures var fs, f := Families(Fam(z), v.Before()), Fam(z)(v.was);
            var k, whole := Rank(fs, f), Last(z)(Bucket(Fam(z), v.Before(), h));
      && f in fs && k < |fs| && (h in fs[..k] ==> h !in fs[k + 1..])
      && (h !in fs[..k] && h !in fs[k + 1..] ==> whole == [])
  {
    hide Families, Bucket, Fam, Rank, Last, Unrepeated;
    var fs, f := Families(Fam(z), v.Before()), Fam(z)(v.was);
    FamiliesFacts(Fam(z), v.Before());
    FamilyPresent(Fam(z), v);
    SplitAt(fs, f);
    assert h in fs ==> h in fs[..Rank(fs, f)] || h in fs[Rank(fs, f) + 1..];
    assert Last(z)([]) == [] by { LastShrinks(z); }
  }

  lemma LastIsTail(z: Settings, xs: seq<Object>)
    requires z.maxRows >= 0
    ensures Last(z)(xs) == Tail(xs, z.maxRows) && Tail(Tail(xs, z.maxRows), z.maxRows) == Tail(xs, z.maxRows)
  {
  }

  /** Every family shrinks to the same rows exactly when those of the new one settle. */
  lemma {:induction false} SharesIff(z: Settings, v: Move<Object>)
    requires z.maxRows >= 0 && Moves(Fam(z), v)
    ensures SameShares(Fam(z), Last(z), v.After(), Shelved(z, v).After()) <==> RowsSettle(Fam(z), v, z.maxRows)
  {
    hide Families, Bucket, Fam, Rank, Last, Shelved, Fits, Tail;
    var fam, g := Fam(z), Fam(z)(v.now);
    var ps, qs := Bucket(fam, v.left, g), Bucket(fam, v.right, g);
    forall xs ensures Last(z)(xs) == Tail(xs, z.maxRows) && Tail(Tail(xs, z.maxRows), z.maxRows) == Tail(xs, z.maxRows) {
      LastIsTail(z, xs);
    }
    forall h | h != g ensures Last(z)(Bucket(fam, v.After(), h)) == Last(z)(Bucket(fam, Shelved(z, v).After(), h)) {
      ShelvedShares(z, v, h);
    }
    ShelvedShares(z, v, g);
    BucketsAround(fam, v.left, v.was, v.right, g);
    BucketsAround(fam, v.left, v.now, v.right, g);
    BucketMembers(fam, v.left, g);
    BucketMembers(fam, v.right, g);
    BehindIff(ps, v.now, qs, z.maxRows);
    AheadOfIff(ps, v.now, qs, z.maxRows);
    assert Bucket(fam, v.Before(), g) == ps + qs;
  }

  /** A row that moves within the compacted list and within the history: the two shelve
      alike exactly when the new family's rows settle and the families settle. */
  lemma {:induction false} KeptMoveIff(z: Settings, v: Move<Object>)
    requires z.maxRows >= 0 && Moves(Fam(z), v)
    ensures Shelve(z, Shelved(z, v).After()) == Shelve(z, v.After()) <==>
            RowsSettle(Fam(z), v, z.maxRows) && FamiliesSettle(Fam(z), v)
  {
    hide Families, Bucket, Fam, Rank, Last, Shelved, Fits, Regroup, RowsSettle, FamiliesSettle;
    LastShrinks(z);
    OrderIff(z, v);
    SharesIff(z, v);
    RegroupSameIff(Fam(z), Last(z), v.After(), Shelved(z, v).After());
  }

  // ---- moving a row the bound has dropped ----------------------------------

  /** The new row is what the correction would have made of the old one, and comes last
      in its family; and the families stand as if it had just been appended. */
  ghost predicate AppendSettles(fam: Object -> string, v: Move<Object>, r: Object) {
    var f, g, ls, rs := fam(v.was), fam(v.now), Families(fam, v.left), Families(fam, v.right);
    && r == v.now && Bucket(fam, v.right, g) == []
    && if f in ls then g in ls || forall h :: h in rs ==> h in ls
       else g in ls && forall h :: h in rs[..Rank(rs, f)] ==> h in ls
  }

  /** Appending a name, or putting it in where the row stood: the old family is ahead. */
  lemma {:induction false} AppendedAhead(ls: seq<string>, rs: seq<string>, f: string, g: string)
    requires f in ls && g !in rs
    ensures var fs := ls + Sift([f], Elements(ls)) + Sift(rs, Elements(ls) + {f});
            ls + Sift([g], Elements(ls)) + Sift(rs, Elements(ls) + {g}) == fs + Sift([g], Elements(fs)) <==>
              g in ls || forall h :: h in rs ==> h in ls
  {
    hide Sift, Elements;
    var known := Elements(ls);
    var gs, zs := Sift([g], known), Sift(rs, known);
    var fs := ls + Sift([f], known) + Sift(rs, known + {f});
    ElementsAre(ls);
    ElementsAre(fs);
    SiftFacts([f], known);
    SiftFacts([g], known);
    SiftFacts(rs, known);
    SiftAgree(rs, known + {f}, known);
    SiftAgree(rs, known + {g}, known);
    assert fs == ls + zs;
    SiftAgree([g], known, Elements(fs));
    Swapped(ls, gs, zs, g);
  }

  /** The old family reappears later. */
  lemma {:induction false} AppendedLater(ls: seq<string>, rs: seq<string>, f: string, g: string)
    requires Unrepeated(rs) && f in rs && g !in rs && f !in ls
    ensures var fs := ls + Sift([f], Elements(ls)) + Sift(rs, Elements(ls) + {f});
            ls + Sift([g], Elements(ls)) + Sift(rs, Elements(ls) + {g}) == fs + Sift([g], Elements(fs)) <==>
              g in ls && forall h :: h in rs[..Rank(rs, f)] ==> h in ls
  {
    hide Sift, Elements, Rank;
    var known, k := Elements(ls), Rank(rs, f);
    var gs, fs := Sift([g], known), ls + Sift([f], known) + Sift(rs, known + {f});
    ElementsAre(ls);
    ElementsAre(fs);
    SiftFacts([f], known);
    SiftFacts([g], known);
    SiftFacts([g], Elements(fs));
    SiftAgree(rs, known + {g}, known);
    SiftAround(rs, f, known);
    var s1, s2 := Sift(rs[..k], known), Sift(rs[k + 1..], known);
    SplitAt(rs, f);
    SiftFacts(rs[..k], known);
    assert Sift(rs, known) == s1 + [f] + s2 && fs == ls + [f] + (s1 + s2);
    if g in ls {
      assert ls + gs + Sift(rs, known) == ls + (s1 + [f] + s2) && fs + Sift([g], Elements(fs)) == ls + ([f] + s1 + s2);
      Shifted(ls, s1, f, s2);
    } else {
      assert (ls + gs + Sift(rs, known))[|ls|] == g && (fs + Sift([g], Elements(fs)))[|ls|] == f;
    }
  }

  lemma Swapped(ls: seq<string>, gs: seq<string>, zs: seq<string>, g: string)
    requires (gs == [] || gs == [g]) && g !in zs
    ensures ls + gs + zs == ls + zs + gs <==> gs == [] || zs == []
  {
    if gs == [g] && zs != [] {
      assert (ls + gs + zs)[|ls|] == g && (ls + zs + gs)[|ls|] == zs[0];
    }
  }

  lemma SameBehind<T>(ps: seq<T>, x: T, qs: seq<T>, n: int)
    requires n > 0 && |qs| >= n
    ensures Tail(ps + [] + qs, n) == Tail(ps + [x] + qs, n)
  {
    TailOfLast(ps + [], qs, n);
    TailOfLast(ps + [x], qs, n);
  }

  /** The appended row is kept where it belongs, and is in the other list only if the
      correction made it. */
  lemma {:induction false} OnlyAppended(z: Settings, v: Move<Object>, r: Object)
    requires z.maxRows > 0 && r !in v.Before() && r != v.now
    ensures !SameShares(Fam(z), Last(z), v.After(), v.Before() + [r])
  {
    hide Bucket, Fam, Last, Tail;
    var fam, h := Fam(z), Fam(z)(r);
    BucketMembers(fam, v.After(), h);
    AppendShape(fam, v.Before(), r);
    TailAppend(Bucket(fam, v.Before(), h), r, z.maxRows);
    TailIn(Bucket(fam, v.After(), h), z.maxRows);
    LastIsTail(z, Bucket(fam, v.After(), h));
    LastIsTail(z, Bucket(fam, v.Before() + [r], h));
    assert r !in Last(z)(Bucket(fam, v.After(), h)) && r in Last(z)(Bucket(fam, v.Before() + [r], h));
  }

  /** Outside the new family nothing changes. */
  lemma {:induction false} UnchangedShare(z: Settings, v: Move<Object>, h: string)
    requires z.maxRows > 0 && Moves(Fam(z), v) && h != Fam(z)(v.now)
    requires |Bucket(Fam(z), v.right, Fam(z)(v.was))| >= z.maxRows
    ensures Last(z)(Bucket(Fam(z), v.After(), h)) == Last(z)(Bucket(Fam(z), v.Before() + [v.now], h))
  {
    hide Bucket, Fam, Last, Tail;
    var fam := Fam(z);
    BucketsAround(fam, v.left, v.was, v.right, h);
    BucketsAround(fam, v.left, v.now, v.right, h);
    AppendShape(fam, v.Before(), v.now);
    LastIsTail(z, Bucket(fam, v.After(), h));
    LastIsTail(z, Bucket(fam, v.Before() + [v.now], h));
    if h == fam(v.was) { SameBehind(Bucket(fam, v.left, h), v.was, Bucket(fam, v.right, h), z.maxRows); }
  }

  /** In the new family the row must have come last. */
  lemma {:induction false} AppendedShare(z: Settings, v: Move<Object>)
    requires z.maxRows > 0 && Moves(Fam(z), v)
    ensures var g := Fam(z)(v.now);
            Last(z)(Bucket(Fam(z), v.After(), g)) == Last(z)(Bucket(Fam(z), v.Before() + [v.now], g)) <==>
              Bucket(Fam(z), v.right, g) == []
  {
    hide Bucket, Fam, Last, Tail;
    var fam, g := Fam(z), Fam(z)(v.now);
    var ps, qs := Bucket(fam, v.left, g), Bucket(fam, v.right, g);
    BucketsAround(fam, v.left, v.was, v.right, g);
    BucketsAround(fam, v.left, v.now, v.right, g);
    AppendShape(fam, v.Before(), v.now);
    LastIsTail(z, Bucket(fam, v.After(), g));
    LastIsTail(z, Bucket(fam, v.Before() + [v.now], g));
    BucketMembers(fam, v.left, g);
    BucketMembers(fam, v.right, g);
    BehindIff(ps, v.now, qs, z.maxRows);
    TailAppend(ps + qs, v.now, z.maxRows);
    assert Bucket(fam, v.Before(), g) == ps + qs;
  }

  /** Which families hold the same rows. */
  lemma {:induction false} AppendedSharesIff(z: Settings, v: Move<Object>, r: Object)
    requires z.maxRows > 0 && Moves(Fam(z), v) && r !in v.Before()
    requires |Bucket(Fam(z), v.right, Fam(z)(v.was))| >= z.maxRows
    ensures SameShares(Fam(z), Last(z), v.After(), v.Before() + [r]) <==> r == v.now && Bucket(Fam(z), v.right, Fam(z)(v.now)) == []
  {
    hide Bucket, Fam, Last, Moves;
    if r != v.now {
      OnlyAppended(z, v, r);
    } else {
      AppendedShare(z, v);
      forall h | h != Fam(z)(v.now)
        ensures Last(z)(Bucket(Fam(z), v.After(), h)) == Last(z)(Bucket(Fam(z), v.Before() + [r], h))
      {
        UnchangedShare(z, v, h);
      }
    }
  }

  /** A row the bound has dropped that moves: the two compactions agree exactly when
      appending the new row does what correcting the old one would have done. */
  lemma {:induction false} DroppedMoveIff(z: Settings, v: Move<Object>, r: Object)
    requires z.maxRows > 0 && Moves(Fam(z), v) && r !in v.Before()
    requires |Bucket(Fam(z), v.right, Fam(z)(v.was))| >= z.maxRows
    ensures Shelve(z, Shelve(z, v.Before()) + [r]) == Shelve(z, v.After()) <==> AppendSettles(Fam(z), v, r)
  {
    hide Bucket, Fam, Last, Families, Regroup, Rank, Sift, Elements;
    var fam, f, g := Fam(z), Fam(z)(v.was), Fam(z)(v.now);
    var ls, rs := Families(fam, v.left), Families(fam, v.right);
    ShelveAppend(z, v.Before(), r);
    LastShrinks(z);
    RegroupSameIff(fam, Last(z), v.After(), v.Before() + [r]);
    AppendedSharesIff(z, v, r);
    if r == v.now && Bucket(fam, v.right, g) == [] {
      FamiliesFacts(fam, v.right);
      FamiliesAround(fam, v.left, v.was, v.right);
      FamiliesAround(fam, v.left, v.now, v.right);
      FamiliesJoin(fam, v.Before(), [r]);
      OneFamily(fam, r);
      if f in ls { AppendedAhead(ls, rs, f, g); } else { AppendedLater(ls, rs, f, g); }
    }
  }

  // ---- one step of the registry --------------------------------------------

  /** The correction of the i-th kept row, as a move. */
  function Correction(z: Settings, rows: seq<Object>, i: nat, r: Object): Move<Object>
    requires i < |rows|
  {
    Move(rows[..i], rows[i], rows[i + 1..], Correct(z, rows[i], r))
  }

  /** The bound still keeps the row. */
  predicate Inside(z: Settings, v: Move<Object>) {
    z.maxRows == 0 || |Bucket(Fam(z), v.right, Fam(z)(v.was))| < z.maxRows
  }

  /** What a correction must meet for the compacted registry to absorb it as the whole
      history would. */
  ghost predicate Accepted(z: Settings, v: Move<Object>, r: Object) {
    if Fam(z)(v.was) == Fam(z)(v.now) then Inside(z, v)
    else if Inside(z, v) then Fits(z, v) && RowsSettle(Fam(z), v, z.maxRows) && FamiliesSettle(Fam(z), v)
    else AppendSettles(Fam(z), v, r)
  }

  /** The new row names no attempt, a fresh one, or corrects one acceptably. */
  ghost predicate Absorbed(z: Settings, h: seq<Object>, r: Object) {
    var es := Dedup(z, h);
    forall i :: 0 <= i < |es| && es[i].key == KeyOf(z, r) != "" ==> Accepted(z, Correction(z, Rows(es), i, r), r)
  }

  /** A correction that moves its row does not make it equal to another one. */
  ghost predicate Unmistakable(z: Settings, h: seq<Object>, r: Object) {
    var d := Rows(Dedup(z, h));
    forall x :: x in d && KeyOf(z, x) == KeyOf(z, r) != "" && Fam(z)(Correct(z, x, r)) != Fam(z)(x) ==> Correct(z, x, r) !in d
  }

  lemma OnlyOne(z: Settings, v: Move<Object>)
    requires KeysDistinct(z, v.Before()) && KeyOf(z, v.was) != ""
    ensures forall x :: x in v.left + v.right ==> KeyOf(z, x) != KeyOf(z, v.was)
  {
    hide KeyOf;
    var xs := v.Before();
    assert xs[|v.left|] == v.was;
    forall x | x in v.left + v.right ensures KeyOf(z, x) != KeyOf(z, v.was) {
      if x in v.left {
        var i :| 0 <= i < |v.left| && v.left[i] == x;
        assert xs[i] == x;
      } else {
        var i :| 0 <= i < |v.right| && v.right[i] == x;
        assert xs[|v.left| + 1 + i] == x;
      }
    }
  }

  lemma OnePlace(z: Settings, rows: seq<Object>, i: nat, k: nat)
    requires KeysDistinct(z, rows) && i < |rows| && k < |rows| && KeyOf(z, rows[i]) == KeyOf(z, rows[k]) != ""
    ensures i == k
  {
    hide KeyOf;
  }

  lemma AloneInKey(z: Settings, rows: seq<Object>, x: Object, y: Object)
    requires KeysDistinct(z, rows) && x in rows && y in rows && KeyOf(z, x) == KeyOf(z, y) != ""
    ensures x == y
  {
    hide KeyOf;
    if x != y { ApartInKey(z, rows, x, y); }
  }

  /** Amending rewrites just the row of the attempt. */
  lemma AmendMoves(z: Settings, v: Move<Object>, r: Object)
    requires KeysDistinct(z, v.Before()) && KeyOf(z, v.was) == KeyOf(z, r) != "" && v.now == Correct(z, v.was, r)
    ensures Rewrite(Amender(z, r), v.Before()) == v.After()
  {
    hide KeyOf, Correct;
    OnlyOne(z, v);
    var xs, ys := v.Before(), v.After();
    forall i | 0 <= i < |xs| ensures Amender(z, r)(xs[i]) == ys[i] {
      if i != |v.left| { assert xs[i] in v.left + v.right; }
    }
  }

  lemma CorrectionRow(z: Settings, rows: seq<Object>, i: nat, r: Object)
    requires i < |rows|
    ensures Correction(z, rows, i, r).Before() == rows && Correction(z, rows, i, r).was == rows[i]
  {
  }

  lemma TailKeeps(ps: seq<Object>, x: Object, qs: seq<Object>, n: int)
    requires n >= 0 && x !in ps + qs
    ensures x in Tail(ps + [x] + qs, n) <==> n == 0 || |qs| < n
  {
    var xs := ps + [x] + qs;
    var t := Tail(xs, n);
    if n > 0 && |qs| >= n {
      TailOfLast(ps + [x], qs, n);
      TailIn(qs, n);
    } else {
      assert t[|t| - |qs| - 1] == x;
    }
  }

  /** The compacted registry still holds the attempt exactly when its row is inside. */
  lemma {:induction false} KeepsIff(z: Settings, h: seq<Object>, i: nat, r: Object)
    requires z.maxRows >= 0 && Steady(z, Dedup(z, h)) && i < |Dedup(z, h)| && Dedup(z, h)[i].key == KeyOf(z, r) != ""
    ensures Keeps(z, Compact(z, h), KeyOf(z, r)) <==> Inside(z, Correction(z, Rows(Dedup(z, h)), i, r))
    ensures Keeps(z, Compact(z, h), KeyOf(z, r)) <==> Rows(Dedup(z, h))[i] in Compact(z, h)
  {
    hide KeyOf, Correct, Bucket, Fam, Shelve, Tail, Dedup;
    var es, c, fam := Dedup(z, h), Compact(z, h), Fam(z);
    var d := Rows(es);
    var v := Correction(z, d, i, r);
    CorrectionRow(z, d, i, r);
    DedupFilesOnce(z, h);
    SteadyRows(z, es);
    OnlyOne(z, v);
    CompactDistinct(z, h);
    var f := fam(v.was);
    ShelveShape(z, d, f);
    BucketsAround(fam, v.left, v.was, v.right, f);
    BucketMembers(fam, v.left, f);
    BucketMembers(fam, v.right, f);
    BucketMembers(fam, c, f);
    TailKeeps(Bucket(fam, v.left, f), v.was, Bucket(fam, v.right, f), z.maxRows);
    if j :| 0 <= j < |c| && KeyOf(z, c[j]) == KeyOf(z, r) {
      assert c[j] in c && c[j] in d;
      var k :| 0 <= k < |d| && d[k] == c[j];
      OnePlace(z, d, i, k);
    }
    if v.was in c {
      var j :| 0 <= j < |c| && c[j] == v.was;
      assert KeyOf(z, c[j]) == KeyOf(z, r);
    }
  }

  /** The streamed side of a step. */
  lemma {:induction false} StreamedStep(z: Settings, h: seq<Object>, r: Object)
    requires z.maxRows >= 0 && Steady(z, Dedup(z, h))
    ensures var c := Compact(z, h);
            Compact(z, c + [r]) == Shelve(z, if KeyOf(z, r) != "" && Keeps(z, c, KeyOf(z, r)) then Rewrite(Amender(z, r), c) else c + [r])
  {
    hide KeyOf, Correct, Shelve, Compact, FamilyRegistry.Amender;
    var c := Compact(z, h);
    CompactDistinct(z, h);
    DedupOfDistinct(z, c);
    assert Rows(FileAll(z, c)) == c;
    CompactUnfold(z, c + [r]);
    FiledSteady(z, c);
    if KeyOf(z, r) != "" && Keeps(z, c, KeyOf(z, r)) {
      var i :| 0 <= i < |c| && KeyOf(z, c[i]) == KeyOf(z, r);
      assert FileAll(z, c)[i].key == KeyOf(z, r);
      DedupRewrites(z, c, r);
    } else {
      assert !Filed(FileAll(z, c), KeyOf(z, r));
      assert (c + [r])[..|c|] == c;
      assert Rows(FileAll(z, c) + [Entry(KeyOf(z, r), r)]) == c + [r];
    }
  }

  /** A move of a kept row out of a family that does not fit the bound is lost. */
  lemma {:induction false} MoveNeedsRoom(z: Settings, h: seq<Object>, i: nat, r: Object)
    requires z.maxRows >= 0 && Steady(z, Dedup(z, h)) && i < |Dedup(z, h)| && Dedup(z, h)[i].key == KeyOf(z, r) != ""
    requires var v := Correction(z, Rows(Dedup(z, h)), i, r); Fam(z)(v.was) != Fam(z)(v.now) && Inside(z, v) && !Fits(z, v)
    ensures Compact(z, Compact(z, h) + [r]) != Compact(z, h + [r])
  {
    hide KeyOf, Correct, Bucket, FamilyOf, Dedup, Compact;
    var d := Rows(Dedup(z, h));
    CorrectionRow(z, d, i, r);
    KeepsIff(z, h, i, r);
    FamIs(z, d[i]);
    FamIs(z, Correct(z, d[i], r));
    MoveRevivesDropped(z, h, r, d[i]);
  }

  /** A correction that moves its row. */
  lemma {:induction false} MoveStepIff(z: Settings, h: seq<Object>, i: nat, r: Object)
    requires z.maxRows >= 0 && Steady(z, Dedup(z, h)) && i < |Dedup(z, h)| && Dedup(z, h)[i].key == KeyOf(z, r) != ""
    requires var d := Rows(Dedup(z, h)); Correct(z, d[i], r) !in d && Fam(z)(Correct(z, d[i], r)) != Fam(z)(d[i])
    ensures Compact(z, Compact(z, h) + [r]) == Compact(z, h + [r]) <==> Accepted(z, Correction(z, Rows(Dedup(z, h)), i, r), r)
  {
    hide KeyOf, Correct, Bucket, Fam, Shelve, Dedup, Compact, RowsSettle, FamiliesSettle, AppendSettles, Inside, Fits, FamilyRegistry.Amender,
      Shelved, KeysDistinct, Steady;
    var es, c := Dedup(z, h), Compact(z, h);
    var d := Rows(es);
    var v := Correction(z, d, i, r);
    CorrectionRow(z, d, i, r);
    DedupFilesOnce(z, h);
    SteadyRows(z, es);
    assert KeyOf(z, v.was) == KeyOf(z, r) by { KeyAt(z, es, i); }
    MovesApart(z, v);
    KeepsIff(z, h, i, r);
    StreamedStep(z, h, r);
    assert Compact(z, h + [r]) == Shelve(z, v.After()) by {
      assert Filed(es, KeyOf(z, r));
      DedupRewrites(z, h, r);
      CompactUnfold(z, h + [r]);
      AmendMoves(z, v, r);
    }
    CompactUnfold(z, h);
    if Inside(z, v) {
      if Fits(z, v) {
        ShelvedIs(z, v);
        SameRow(z, v);
        CompactDistinct(z, h);
        AmendMoves(z, Shelved(z, v), r);
        KeptMoveIff(z, v);
      } else {
        MoveNeedsRoom(z, h, i, r);
      }
    } else {
      assert z.maxRows > 0 && |Bucket(Fam(z), v.right, Fam(z)(v.was))| >= z.maxRows by { Outside(z, v); }
      NotYetThere(z, d, i, r);
      DroppedMoveIff(z, v, r);
    }
  }

  lemma Outside(z: Settings, v: Move<Object>)
    requires z.maxRows >= 0 && !Inside(z, v)
    ensures z.maxRows > 0 && |Bucket(Fam(z), v.right, Fam(z)(v.was))| >= z.maxRows
  {
  }

  lemma KeyAt(z: Settings, es: seq<Entry>, i: nat)
    requires Steady(z, es) && i < |es|
    ensures KeyOf(z, Rows(es)[i]) == es[i].key
  {
  }

  lemma MovesApart(z: Settings, v: Move<Object>)
    requires KeysDistinct(z, v.Before()) && KeyOf(z, v.was) != "" && v.now !in v.Before() && Fam(z)(v.was) != Fam(z)(v.now)
    ensures Moves(Fam(z), v)
  {
    hide KeyOf, Fam;
    OnlyOne(z, v);
  }

  /** A row is no correction of itself. */
  lemma {:induction false} NotYetThere(z: Settings, d: seq<Object>, i: nat, r: Object)
    requires KeysDistinct(z, d) && i < |d| && KeyOf(z, d[i]) == KeyOf(z, r) != ""
    requires Fam(z)(Correct(z, d[i], r)) != Fam(z)(d[i])
    ensures r !in d
  {
    hide KeyOf, KeysDistinct, Fam, Correct;
    if r in d {
      var k :| 0 <= k < |d| && d[k] == r;
      OnePlace(z, d, i, k);
      CorrectSelf(z, r);
    }
  }

  lemma CorrectSelf(z: Settings, r: Object)
    ensures Correct(z, r, r) == r
  {
    hide Label;
    assert r + r == r;
  }

  /** Over every history whose rows keep their keys, and for every row that comes next:
      compacting the compacted registry and the new row gives what compacting the whole
      history gives exactly when the row is absorbed. */
  lemma {:induction false} StreamStepIff(z: Settings, h: seq<Object>, r: Object)
    requires z.maxRows >= 0 && Steady(z, Dedup(z, h)) && Unmistakable(z, h, r)
    ensures Compact(z, Compact(z, h) + [r]) == Compact(z, h + [r]) <==> Absorbed(z, h, r)
  {
    hide KeyOf, Correct, Fam, FamilyOf, Dedup, Compact, Accepted, Steady, Stays;
    var es := Dedup(z, h);
    var d := Rows(es);
    if Filed(es, KeyOf(z, r)) {
      var i :| 0 <= i < |es| && es[i].key == KeyOf(z, r);
      DedupFilesOnce(z, h);
      assert forall j :: 0 <= j < |es| && es[j].key == KeyOf(z, r) ==> j == i;
      KeyAt(z, es, i);
      CorrectionRow(z, d, i, r);
      if Fam(z)(Correct(z, d[i], r)) == Fam(z)(d[i]) {
        StaysAt(z, es, i, r);
        StayStepIff(z, h, r);
        KeepsIff(z, h, i, r);
        AcceptedHere(z, Correction(z, d, i, r), r);
      } else {
        assert d[i] in d;
        MoveStepIff(z, h, i, r);
      }
    } else {
      NobodyMoves(z, es, r);
      StayStepIff(z, h, r);
    }
  }

  lemma AcceptedHere(z: Settings, v: Move<Object>, r: Object)
    requires Fam(z)(v.was) == Fam(z)(v.now)
    ensures Accepted(z, v, r) <==> Inside(z, v)
  {
  }

  lemma StaysAt(z: Settings, es: seq<Entry>, i: nat, r: Object)
    requires Steady(z, es) && DistinctlyFiled(es) && i < |es| && es[i].key == KeyOf(z, r) != ""
    requires Fam(z)(Correct(z, Rows(es)[i], r)) == Fam(z)(Rows(es)[i])
    ensures Stays(z, Rows(es), r)
  {
    hide KeyOf, Correct, FamilyOf;
    forall x | x in Rows(es) && KeyOf(z, x) == KeyOf(z, r) ensures x == Rows(es)[i] {
      var k :| 0 <= k < |es| && Rows(es)[k] == x;
      assert k == i;
    }
  }

  lemma NobodyMoves(z: Settings, es: seq<Entry>, r: Object)
    requires Steady(z, es) && !Filed(es, KeyOf(z, r))
    ensures Stays(z, Rows(es), r)
  {
    hide KeyOf, Correct, FamilyOf;
    forall x | KeyOf(z, r) != "" && x in Rows(es) ensures KeyOf(z, x) != KeyOf(z, r) {
      var k :| 0 <= k < |es| && Rows(es)[k] == x;
      assert es[k].key == KeyOf(z, x);
    }
  }

  // ---- whole histories -----------------------------------------------------

  /** The registry as the evaluator maintains it: compacted after every append. */
  ghost function Stream(z: Settings, rows: seq<Object>): seq<Object> {
    if rows == [] then [] else Compact(z, Stream(z, rows[..|rows| - 1]) + [rows[|rows| - 1]])
  }

  /** No correction changes the key of the row it corrects. */
  ghost predicate KeysStay(z: Settings, rows: seq<Object>) {
    rows != [] ==>
      var h, r := rows[..|rows| - 1], rows[|rows| - 1];
      && KeysStay(z, h)
      && forall x :: x in Rows(Dedup(z, h)) && KeyOf(z, x) == KeyOf(z, r) != "" ==> KeyOf(z, Correct(z, x, r)) == KeyOf(z, r)
  }

  /** Each row is absorbed when it arrives. */
  ghost predicate Orderly(z: Settings, rows: seq<Object>) {
    rows != [] ==> Orderly(z, rows[..|rows| - 1]) && Absorbed(z, rows[..|rows| - 1], rows[|rows| - 1])
  }

  /** After every append the streamed registry is the compacted history. */
  ghost predicate AgreesThroughout(z: Settings, rows: seq<Object>) {
    rows != [] ==> AgreesThroughout(z, rows[..|rows| - 1]) && Stream(z, rows) == Compact(z, rows)
  }

  lemma {:induction false} KeysStaySteady(z: Settings, rows: seq<Object>)
    requires KeysStay(z, rows)
    ensures Steady(z, Dedup(z, rows))
  {
    hide KeyOf, Correct;
    if rows != [] {
      var n := |rows| - 1;
      var es := Dedup(z, rows[..n]);
      KeysStaySteady(z, rows[..n]);
      forall i | 0 <= i < |es| && es[i].key == KeyOf(z, rows[n]) != "" ensures KeyOf(z, Correct(z, es[i].row, rows[n])) == es[i].key {
        assert Rows(es)[i] == es[i].row;
      }
    }
  }

  lemma {:induction false} KeptKeyIsUnmistakable(z: Settings, rows: seq<Object>)
    requires rows != [] && KeysStay(z, rows)
    ensures Unmistakable(z, rows[..|rows| - 1], rows[|rows| - 1])
  {
    hide KeyOf, Correct, Fam, Dedup;
    var h, r := rows[..|rows| - 1], rows[|rows| - 1];
    var es := Dedup(z, h);
    var d := Rows(es);
    KeysStaySteady(z, h);
    DedupFilesOnce(z, h);
    SteadyRows(z, es);
    forall x | x in d && KeyOf(z, x) == KeyOf(z, r) != "" && Fam(z)(Correct(z, x, r)) != Fam(z)(x) ensures Correct(z, x, r) !in d {
      if Correct(z, x, r) in d { AloneInKey(z, d, x, Correct(z, x, r)); }
    }
  }

  /** Over every history without key changes, compacting after each append agrees with
      compacting the whole history throughout exactly when every row is absorbed. */
  lemma {:induction false} StreamingEqualsBatchIff(z: Settings, rows: seq<Object>)
    requires z.maxRows >= 0 && KeysStay(z, rows)
    ensures AgreesThroughout(z, rows) <==> Orderly(z, rows)
    ensures Orderly(z, rows) ==> Stream(z, rows) == Compact(z, rows)
  {
    hide KeyOf, Correct, Compact, Absorbed, Steady, Dedup, Unmistakable;
    if rows == [] {
      EmptyCompact(z);
    } else {
      var n := |rows| - 1;
      assert rows == rows[..n] + [rows[n]];
      StreamingEqualsBatchIff(z, rows[..n]);
      KeysStaySteady(z, rows[..n]);
      KeptKeyIsUnmistakable(z, rows);
      StreamStepIff(z, rows[..n], rows[n]);
      if AgreesThroughout(z, rows[..n]) { AgreedSoFar(z, rows[..n]); }
    }
  }

  lemma AgreedSoFar(z: Settings, rows: seq<Object>)
    requires AgreesThroughout(z, rows)
    ensures Stream(z, rows) == Compact(z, rows)
  {
    if rows == [] { EmptyCompact(z); }
  }

  lemma EmptyCompact(z: Settings)
    ensures Compact(z, []) == []
  {
  }
}
