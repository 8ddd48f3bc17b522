/** Lexicographic orders and the stable sort of the standard library. */
module Order {

  ghost predicate StrictTotal<T(!new)>(less: (T, T) -> bool) {
    && (forall a, b :: less(a, b) ==> !less(b, a) && a != b)
    && (forall a, b :: a != b ==> less(a, b) || less(b, a))
    && (forall a, b, c :: less(a, b) && less(b, c) ==> less(a, c))
  }

  /** `Ord` of slices and of paths: the first difference decides, a proper prefix comes first. */
  predicate Lex<T(==)>(less: (T, T) -> bool, a: seq<T>, b: seq<T>) {
    if b == [] then false
    else if a == [] then true
    else less(a[0], b[0]) || (a[0] == b[0] && Lex(less, a[1..], b[1..]))
  }

  lemma {:induction false} LexTotal<T(!new)>(less: (T, T) -> bool, a: seq<T>, b: seq<T>)
    requires StrictTotal(less)
    ensures a != b ==> Lex(less, a, b) || Lex(less, b, a)
    ensures Lex(less, a, b) ==> !Lex(less, b, a) && a != b
  {
    if a != [] && b != [] {
      assert a == [a[0]] + a[1..] && b == [b[0]] + b[1..];
      LexTotal(less, a[1..], b[1..]);
    }
  }

  lemma {:induction false} LexTransitive<T(!new)>(less: (T, T) -> bool, a: seq<T>, b: seq<T>, c: seq<T>)
    requires StrictTotal(less) && Lex(less, a, b) && Lex(less, b, c)
    ensures Lex(less, a, c)
  {
    if a != [] && a[0] == b[0] == c[0] {
      LexTransitive(less, a[1..], b[1..], c[1..]);
    }
  }

  function LexOf<T(==)>(less: (T, T) -> bool): (seq<T>, seq<T>) -> bool {
    (a, b) => Lex(less, a, b)
  }

  lemma LexStrictTotal<T(!new)>(less: (T, T) -> bool)
    requires StrictTotal(less)
    ensures StrictTotal(LexOf(less))
  {
    var lex := LexOf(less);
    forall a, b ensures (lex(a, b) ==> !lex(b, a) && a != b) && (a != b ==> lex(a, b) || lex(b, a)) {
      LexTotal(less, a, b);
    }
    forall a, b, c | lex(a, b) && lex(b, c) ensures lex(a, c) {
      LexTransitive(less, a, b, c);
    }
  }

  /** The first differing element decides, whatever follows it. */
  lemma {:induction false} LexAfterPrefix<T(!new)>(less: (T, T) -> bool, pre: seq<T>, a: seq<T>, b: seq<T>)
    requires StrictTotal(less)
    ensures Lex(less, pre + a, pre + b) <==> Lex(less, a, b)
  {
    if pre == [] {
      assert pre + a == a && pre + b == b;
    } else {
      assert (pre + a)[1..] == pre[1..] + a && (pre + b)[1..] == pre[1..] + b;
      LexAfterPrefix(less, pre[1..], a, b);
    }
  }

  /** Up to `k` the two are the same, and there `a` ends or has the lesser element. */
  predicate DiffersAt<T(==)>(less: (T, T) -> bool, a: seq<T>, b: seq<T>, k: nat) {
    k <= |a| && k < |b| && a[..k] == b[..k] && (k == |a| || less(a[k], b[k]))
  }

  /** The first difference decides, and a proper prefix comes first. */
  lemma {:induction false} LexExactly<T(!new)>(less: (T, T) -> bool, a: seq<T>, b: seq<T>)
    ensures Lex(less, a, b) <==> exists k: nat :: DiffersAt(less, a, b, k)
  {
    if a == [] || b == [] {
      assert b != [] ==> DiffersAt(less, a, b, 0);
    } else {
      LexExactly(less, a[1..], b[1..]);
      if less(a[0], b[0]) {
        assert DiffersAt(less, a, b, 0);
      }
      forall k: nat | a[0] == b[0] && DiffersAt(less, a[1..], b[1..], k) ensures DiffersAt(less, a, b, k + 1) {
        assert a[..k + 1] == [a[0]] + a[1..][..k] && b[..k + 1] == [b[0]] + b[1..][..k];
      }
      forall k: nat | k > 0 && DiffersAt(less, a, b, k)
        ensures a[0] == b[0] && DiffersAt(less, a[1..], b[1..], k - 1)
      {
        assert a[0] == a[..k][0] && b[0] == b[..k][0];
        assert a[1..][..k - 1] == a[..k][1..] && b[1..][..k - 1] == b[..k][1..];
      }
    }
  }

  ghost predicate Increasing<T(!new)>(less: (T, T) -> bool, s: seq<T>) {
    forall i, j | 0 <= i < j < |s| :: less(s[i], s[j])
  }

  /** A set has one increasing enumeration. */
  lemma {:induction false} IncreasingIsUnique<T(!new)>(less: (T, T) -> bool, s: seq<T>, t: seq<T>)
    requires StrictTotal(less) && Increasing(less, s) && Increasing(less, t)
    requires forall x :: x in s <==> x in t
    ensures s == t
  {
    if s != [] {
      assert s[0] in s;
    }
    if t != [] {
      assert t[0] in t;
    }
    if s != [] && t != [] {
      assert s[0] in t && t[0] in s;
      assert s[0] == t[0];
      forall x ensures x in s[1..] <==> x in t[1..] {
        if x in s[1..] {
          assert x in t && x != t[0];
        }
        if x in t[1..] {
          assert x in s && x != s[0];
        }
      }
      IncreasingIsUnique(less, s[1..], t[1..]);
      assert s == [s[0]] + s[1..] && t == [t[0]] + t[1..];
    }
  }

  function Insert<T>(leq: (T, T) -> bool, x: T, s: seq<T>): (r: seq<T>)
    ensures |r| == |s| + 1
  {
    if s == [] then [x]
    else if leq(x, s[0]) then [x] + s
    else [s[0]] + Insert(leq, x, s[1..])
  }

  /** `slice::sort_by`: equal elements keep their order. */
  function Sort<T>(leq: (T, T) -> bool, s: seq<T>): (r: seq<T>)
    ensures |r| == |s|
  {
    if s == [] then [] else Insert(leq, s[0], Sort(leq, s[1..]))
  }

  lemma {:induction false} InsertPermutes<T>(leq: (T, T) -> bool, x: T, s: seq<T>)
    ensures multiset(Insert(leq, x, s)) == multiset(s) + multiset{x}
  {
    if s == [] || leq(x, s[0]) {
      assert Insert(leq, x, s) == [x] + s;
    } else {
      InsertPermutes(leq, x, s[1..]);
      assert s == [s[0]] + s[1..];
      hide Insert;
    }
  }

  lemma {:induction false} SortPermutes<T>(leq: (T, T) -> bool, s: seq<T>)
    ensures multiset(Sort(leq, s)) == multiset(s)
  {
    if s != [] {
      SortPermutes(leq, s[1..]);
      InsertPermutes(leq, s[0], Sort(leq, s[1..]));
      assert s == [s[0]] + s[1..];
    }
  }

  lemma SortMembers<T>(leq: (T, T) -> bool, s: seq<T>)
    ensures forall x :: x in Sort(leq, s) <==> x in s
  {
    SortPermutes(leq, s);
    forall x ensures x in Sort(leq, s) <==> x in s {
      assert x in Sort(leq, s) <==> x in multiset(Sort(leq, s));
      assert x in s <==> x in multiset(s);
    }
  }

  /**
   * Sorting by a key what is increasing in a second order gives what is increasing in the
   * combined order: `less` refines the key comparison `leq` and breaks its ties by `second`.
   */
  lemma {:induction false} SortIncreases<T(!new)>(
    leq: (T, T) -> bool, second: (T, T) -> bool, less: (T, T) -> bool, s: seq<T>)
    requires StrictTotal(less) && Increasing(second, s)
    requires forall a, b :: leq(a, b) && second(a, b) ==> less(a, b)
    requires forall a, b :: !leq(a, b) ==> less(b, a)
    ensures Increasing(less, Sort(leq, s))
  {
    if s != [] {
      var t := Sort(leq, s[1..]);
      SortIncreases(leq, second, less, s[1..]);
      forall i | 0 <= i < |t| ensures second(s[0], t[i]) {
        SortMembers(leq, s[1..]);
        assert t[i] in s[1..];
      }
      InsertIncreases(leq, second, less, s[0], t);
    }
  }

  lemma {:induction false} InsertIncreases<T(!new)>(
    leq: (T, T) -> bool, second: (T, T) -> bool, less: (T, T) -> bool, x: T, t: seq<T>)
    requires StrictTotal(less) && Increasing(less, t)
    requires forall i | 0 <= i < |t| :: second(x, t[i])
    requires forall a, b :: leq(a, b) && second(a, b) ==> less(a, b)
    requires forall a, b :: !leq(a, b) ==> less(b, a)
    ensures Increasing(less, Insert(leq, x, t))
  {
    if t != [] && !leq(x, t[0]) {
      var r := Insert(leq, x, t[1..]);
      InsertIncreases(leq, second, less, x, t[1..]);
      InsertPermutes(leq, x, t[1..]);
      forall i | 0 <= i < |r| ensures less(t[0], r[i]) {
        assert r[i] in multiset(r);
        assert r[i] == x || r[i] in t[1..];
      }
    }
  }
}
