/** Sorting by `created_at`, newest first, and cutting off after `limit`
    (services/data/data_service.py, `get_all_bookings`). */
module NewestFirst {
  import opened Lex

  function Take<T>(k: nat, s: seq<T>): seq<T> {
    if |s| <= k then s else s[..k]
  }

  function InsertKey(x: string, s: seq<string>): seq<string> {
    if s == [] || Leq(s[0], x) then [x] + s else [s[0]] + InsertKey(x, s[1..])
  }

  function InsertKeys(xs: seq<string>, s: seq<string>): seq<string> {
    if xs == [] then s else InsertKey(xs[0], InsertKeys(xs[1..], s))
  }

  function SortKeys(xs: seq<string>): seq<string> {
    InsertKeys(xs, [])
  }

  ghost predicate Descending(s: seq<string>) {
    forall i, j | 0 <= i < j < |s| :: Leq(s[j], s[i])
  }

  lemma InsertKeyKeeps(x: string, s: seq<string>)
    ensures multiset(InsertKey(x, s)) == multiset(s) + multiset{x}
    ensures forall y | y in InsertKey(x, s) :: y == x || y in s
  {
    if s == [] {
    } else {
      assert s == [s[0]] + s[1..];
      if !Leq(s[0], x) { InsertKeyKeeps(x, s[1..]); }
    }
  }

  lemma DescendingCons(x: string, s: seq<string>)
    requires Descending(s) && forall y | y in s :: Leq(y, x)
    ensures Descending([x] + s)
  {
  }

  lemma InsertKeyDescending(x: string, s: seq<string>)
    requires Descending(s)
    ensures Descending(InsertKey(x, s))
  {
    if s == [] {
    } else if Leq(s[0], x) {
      forall y | y in s ensures Leq(y, x) {
        Total(y, y);
        Transitive(y, s[0], x);
      }
      DescendingCons(x, s);
    } else {
      Total(x, s[0]);
      InsertKeyKeeps(x, s[1..]);
      InsertKeyDescending(x, s[1..]);
      DescendingCons(s[0], InsertKey(x, s[1..]));
    }
  }

  lemma {:induction false} InsertKeysSorts(xs: seq<string>, s: seq<string>)
    requires Descending(s)
    ensures Descending(InsertKeys(xs, s)) && multiset(InsertKeys(xs, s)) == multiset(xs) + multiset(s)
  {
    if xs == [] {
    } else {
      assert xs == [xs[0]] + xs[1..];
      InsertKeysSorts(xs[1..], s);
      InsertKeyDescending(xs[0], InsertKeys(xs[1..], s));
      InsertKeyKeeps(xs[0], InsertKeys(xs[1..], s));
    }
  }

  lemma HeadIsGreatest(s: seq<string>, x: string)
    requires Descending(s) && x in multiset(s)
    ensures s != [] && Leq(x, s[0])
  {
    Total(x, x);
  }

  lemma SameHead(a: seq<string>, b: seq<string>)
    requires Descending(a) && Descending(b) && multiset(a) == multiset(b) && a != []
    ensures b != [] && a[0] == b[0]
  {
    assert a[0] in multiset(a);
    HeadIsGreatest(b, a[0]);
    assert b[0] in multiset(b);
    HeadIsGreatest(a, b[0]);
    Antisymmetric(a[0], b[0]);
  }

  /** A descending list is determined by its multiset. */
  lemma {:induction false} DescendingUnique(a: seq<string>, b: seq<string>)
    requires Descending(a) && Descending(b) && multiset(a) == multiset(b)
    ensures a == b
    decreases a
  {
    if a == [] {
      assert |multiset(b)| == 0;
    } else {
      SameHead(a, b);
      assert a == [a[0]] + a[1..] && b == [b[0]] + b[1..];
      assert multiset(a[1..]) == multiset(a) - multiset{a[0]};
      assert multiset(b[1..]) == multiset(b) - multiset{b[0]};
      DescendingUnique(a[1..], b[1..]);
    }
  }

  lemma SortKeysByMultiset(xs: seq<string>, ys: seq<string>)
    requires multiset(xs) == multiset(ys)
    ensures SortKeys(xs) == SortKeys(ys)
  {
    InsertKeysSorts(xs, []);
    InsertKeysSorts(ys, []);
    DescendingUnique(SortKeys(xs), SortKeys(ys));
  }

  lemma SortedIsFixed(s: seq<string>)
    requires Descending(s)
    ensures SortKeys(s) == s
  {
    InsertKeysSorts(s, []);
    DescendingUnique(SortKeys(s), s);
  }

  lemma TakeCons(k: nat, x: string, s: seq<string>)
    requires k > 0
    ensures Take(k, [x] + s) == [x] + Take(k - 1, s)
  {
  }

  lemma {:induction false} TakeInsert(k: nat, x: string, s: seq<string>)
    ensures Take(k, InsertKey(x, s)) == Take(k, InsertKey(x, Take(k, s)))
  {
    if s != [] && k > 0 {
      assert s == [s[0]] + s[1..];
      TakeCons(k, s[0], s[1..]);
      if Leq(s[0], x) {
        TakeCons(k, x, s);
        TakeCons(k, x, Take(k, s));
        assert Take(k - 1, Take(k, s)) == Take(k - 1, s);
      } else {
        TakeInsert(k - 1, x, s[1..]);
        assert Take(k, s)[1..] == Take(k - 1, s[1..]);
        TakeCons(k, s[0], InsertKey(x, s[1..]));
        TakeCons(k, s[0], InsertKey(x, Take(k - 1, s[1..])));
      }
    }
  }

  lemma {:induction false} TakeInsertKeys(k: nat, xs: seq<string>, s: seq<string>)
    ensures Take(k, InsertKeys(xs, s)) == Take(k, InsertKeys(xs, Take(k, s)))
  {
    if xs == [] {
      assert Take(k, Take(k, s)) == Take(k, s);
    } else {
      TakeInsertKeys(k, xs[1..], s);
      TakeInsert(k, xs[0], InsertKeys(xs[1..], s));
      TakeInsert(k, xs[0], InsertKeys(xs[1..], Take(k, s)));
    }
  }

  lemma {:induction false} InsertKeysConcat(xs: seq<string>, ys: seq<string>, s: seq<string>)
    ensures InsertKeys(xs + ys, s) == InsertKeys(xs, InsertKeys(ys, s))
  {
    if xs == [] {
      assert xs + ys == ys;
    } else {
      assert (xs + ys)[1..] == xs[1..] + ys;
      InsertKeysConcat(xs[1..], ys, s);
    }
  }

  /** Cutting one part down to its newest `k` does not change the newest `k` of the whole. */
  lemma TakeOnePart(k: nat, xs: seq<string>, ys: seq<string>)
    ensures Take(k, SortKeys(Take(k, SortKeys(xs)) + ys)) == Take(k, SortKeys(xs + ys))
  {
    var t := Take(k, SortKeys(xs));
    InsertKeysSorts(xs, []);
    SortedIsFixed(t);
    SortKeysByMultiset(t + ys, ys + t);
    InsertKeysConcat(ys, t, []);
    TakeInsertKeys(k, ys, SortKeys(xs));
    InsertKeysConcat(ys, xs, []);
    SortKeysByMultiset(xs + ys, ys + xs);
  }

  function Concat<T>(parts: seq<seq<T>>): seq<T> {
    if parts == [] then [] else parts[0] + Concat(parts[1..])
  }

  function Newest(k: nat, parts: seq<seq<string>>): seq<string> {
    if parts == [] then [] else Take(k, SortKeys(parts[0])) + Newest(k, parts[1..])
  }

  /** Distributed top-k: the newest `k` among the newest `k` of every part are the newest `k`. */
  lemma {:induction false} DistributedNewest(k: nat, parts: seq<seq<string>>)
    ensures Take(k, SortKeys(Newest(k, parts))) == Take(k, SortKeys(Concat(parts)))
  {
    if parts == [] {
    } else {
      var p, rest := parts[0], parts[1..];
      DistributedNewest(k, rest);
      TakeOnePart(k, p, Newest(k, rest));
      InsertKeysConcat(p, Newest(k, rest), []);
      InsertKeysConcat(p, Concat(rest), []);
      TakeInsertKeys(k, p, SortKeys(Newest(k, rest)));
      TakeInsertKeys(k, p, SortKeys(Concat(rest)));
    }
  }
}
