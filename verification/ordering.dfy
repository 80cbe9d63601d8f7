/**
 * `ORDER BY x, y` over text columns, as the list queries of the server use it:
 * rows are ordered by a pair of strings under SQLite's BINARY collation
 * (string `<` by character code). Rows with equal keys may come in any order.
 */
module Ordering {
  import opened Text

  /** The ORDER BY columns of a row; a query ordering by one column leaves `second` empty. */
  datatype SortKey = SortKey(first: string, second: string)

  predicate StrLe(a: string, b: string) {
    a == b || StrLt(a, b)
  }

  /** `a` may come before `b` in the result. */
  predicate KeyLe(a: SortKey, b: SortKey) {
    StrLt(a.first, b.first) || (a.first == b.first && StrLe(a.second, b.second))
  }

  predicate SortedBy<T>(s: seq<T>, key: T -> SortKey) {
    forall i, j :: 0 <= i < j < |s| ==> KeyLe(key(s[i]), key(s[j]))
  }

  lemma StrLeTotal(a: string, b: string)
    ensures StrLe(a, b) || StrLe(b, a)
  {
    StrLtTotal(a, b);
  }

  lemma StrLeTransitive(a: string, b: string, c: string)
    requires StrLe(a, b) && StrLe(b, c)
    ensures StrLe(a, c)
  {
    if a != b && b != c {
      StrLtTransitive(a, b, c);
    }
  }

  /** Any two keys are ordered one way or the other. */
  lemma KeyLeTotal(a: SortKey, b: SortKey)
    ensures KeyLe(a, b) || KeyLe(b, a)
  {
    StrLtTotal(a.first, b.first);
    StrLeTotal(a.second, b.second);
  }

  lemma KeyLeTransitive(a: SortKey, b: SortKey, c: SortKey)
    requires KeyLe(a, b) && KeyLe(b, c)
    ensures KeyLe(a, c)
  {
    if StrLt(a.first, b.first) && StrLt(b.first, c.first) {
      StrLtTransitive(a.first, b.first, c.first);
    } else if a.first == b.first && b.first == c.first {
      StrLeTransitive(a.second, b.second, c.second);
    }
  }

  /** Places `x` before the first element it may precede. */
  function Insert<T>(x: T, s: seq<T>, key: T -> SortKey): (r: seq<T>)
    ensures multiset(r) == multiset(s) + multiset{x}
  {
    if |s| == 0 then [x]
    else if KeyLe(key(x), key(s[0])) then [x] + s
    else
      assert s == [s[0]] + s[1..];
      [s[0]] + Insert(x, s[1..], key)
  }

  /** The rows of `s` in ORDER BY order (insertion sort). */
  function Sort<T>(s: seq<T>, key: T -> SortKey): (r: seq<T>)
    ensures multiset(r) == multiset(s)
  {
    if |s| == 0 then []
    else
      assert s == [s[0]] + s[1..];
      Insert(s[0], Sort(s[1..], key), key)
  }

  /** Inserting into a sorted sequence keeps it sorted. */
  lemma {:induction false} InsertSorted<T>(x: T, s: seq<T>, key: T -> SortKey)
    requires SortedBy(s, key)
    ensures SortedBy(Insert(x, s, key), key)
  {
    if |s| > 0 {
      if KeyLe(key(x), key(s[0])) {
        var r := [x] + s;
        forall i, j | 0 <= i < j < |r| ensures KeyLe(key(r[i]), key(r[j])) {
          if i == 0 && j > 1 {
            KeyLeTransitive(key(x), key(s[0]), key(s[j - 1]));
          }
        }
      } else {
        KeyLeTotal(key(x), key(s[0]));
        InsertSorted(x, s[1..], key);
        var tail := Insert(x, s[1..], key);
        assert multiset(tail) == multiset(s[1..]) + multiset{x};
        var r := [s[0]] + tail;
        forall j | 0 < j < |r| ensures KeyLe(key(s[0]), key(r[j])) {
          assert r[j] in multiset(tail);
          assert r[j] == x || r[j] in s[1..];
        }
      }
    }
  }

  /** `Sort` orders its result. */
  lemma {:induction false} SortSorted<T>(s: seq<T>, key: T -> SortKey)
    ensures SortedBy(Sort(s, key), key)
  {
    if |s| > 0 {
      SortSorted(s[1..], key);
      InsertSorted(s[0], Sort(s[1..], key), key);
    }
  }
}
