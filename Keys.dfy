/** Group-by keys and the ascending order pandas sorts them in: numbers numerically, strings
    by code point, lexicographically (Python's string order). */
module Keys {

  /** A group key: a numeric cell (Age, TimeOnSite, SocialShares) or a text cell. */
  datatype Key = Num(n: real) | Text(s: string)

  /** Python's `<` on strings: a proper prefix is smaller, otherwise the first differing
      character decides. */
  predicate StrLess(a: string, b: string) {
    if a == [] then b != []
    else if b == [] then false
    else a[0] < b[0] || (a[0] == b[0] && StrLess(a[1..], b[1..]))
  }

  /** Numbers before strings; a table column never mixes the two. */
  predicate KeyLess(a: Key, b: Key) {
    match (a, b)
    case (Num(x), Num(y)) => x < y
    case (Text(x), Text(y)) => StrLess(x, y)
    case (Num(_), Text(_)) => true
    case (Text(_), Num(_)) => false
  }

  lemma {:induction false} StrLessIrreflexive(a: string)
    ensures !StrLess(a, a)
  {
    if a != [] {
      StrLessIrreflexive(a[1..]);
    }
  }

  lemma {:induction false} StrLessTransitive(a: string, b: string, c: string)
    requires StrLess(a, b) && StrLess(b, c)
    ensures StrLess(a, c)
  {
    if a != [] && b != [] && c != [] && a[0] == b[0] && b[0] == c[0] {
      StrLessTransitive(a[1..], b[1..], c[1..]);
    }
  }

  lemma {:induction false} StrLessTotal(a: string, b: string)
    requires a != b
    ensures StrLess(a, b) || StrLess(b, a)
  {
    if a != [] && b != [] && a[0] == b[0] {
      assert a == [a[0]] + a[1..] && b == [b[0]] + b[1..];
      StrLessTotal(a[1..], b[1..]);
    }
  }

  /** The key order is a strict total order. */
  lemma KeyLessIrreflexive(a: Key)
    ensures !KeyLess(a, a)
  {
    if a.Text? {
      StrLessIrreflexive(a.s);
    }
  }

  lemma KeyLessTransitive(a: Key, b: Key, c: Key)
    requires KeyLess(a, b) && KeyLess(b, c)
    ensures KeyLess(a, c)
  {
    if a.Text? && b.Text? && c.Text? {
      StrLessTransitive(a.s, b.s, c.s);
    }
  }

  lemma KeyLessTotal(a: Key, b: Key)
    requires a != b
    ensures KeyLess(a, b) || KeyLess(b, a)
  {
    if a.Text? && b.Text? {
      StrLessTotal(a.s, b.s);
    }
  }

  predicate StrictlyAscending(ks: seq<Key>) {
    forall i, j :: 0 <= i < j < |ks| ==> KeyLess(ks[i], ks[j])
  }

  /** Adds `k` to a key list before the first larger key; a key already present is not added
      again. */
  function Insert(k: Key, ks: seq<Key>): seq<Key> {
    if ks == [] then [k]
    else if k == ks[0] then ks
    else if KeyLess(k, ks[0]) then [k] + ks
    else [ks[0]] + Insert(k, ks[1..])
  }

  /** Inserting adds exactly `k`. */
  lemma {:induction false} InsertMembership(k: Key, ks: seq<Key>)
    ensures forall x :: x in Insert(k, ks) <==> x == k || x in ks
  {
    if ks != [] && k != ks[0] && !KeyLess(k, ks[0]) {
      InsertMembership(k, ks[1..]);
      assert forall x :: x in ks <==> x == ks[0] || x in ks[1..];
    }
  }

  /** Inserting into a strictly ascending list keeps it strictly ascending. */
  lemma {:induction false} InsertAscending(k: Key, ks: seq<Key>)
    requires StrictlyAscending(ks)
    ensures StrictlyAscending(Insert(k, ks))
  {
    if ks == [] {
    } else if k == ks[0] {
    } else if KeyLess(k, ks[0]) {
      forall j | 0 <= j < |ks| ensures KeyLess(k, ks[j]) {
        if j > 0 {
          KeyLessTransitive(k, ks[0], ks[j]);
        }
      }
      AscendingCons(k, ks);
    } else {
      KeyLessTotal(k, ks[0]);
      var rest := ks[1..];
      assert StrictlyAscending(rest) by {
        forall i, j | 0 <= i < j < |rest| ensures KeyLess(rest[i], rest[j]) {
          assert rest[i] == ks[i + 1] && rest[j] == ks[j + 1];
        }
      }
      InsertAscending(k, rest);
      InsertMembership(k, rest);
      var tail := Insert(k, rest);
      forall j | 0 <= j < |tail| ensures KeyLess(ks[0], tail[j]) {
        if tail[j] != k {
          assert tail[j] in rest;
          var m :| 0 <= m < |rest| && rest[m] == tail[j];
          assert ks[m + 1] == tail[j];
        }
      }
      AscendingCons(ks[0], tail);
    }
  }

  lemma AscendingCons(k: Key, ks: seq<Key>)
    requires StrictlyAscending(ks)
    requires forall j :: 0 <= j < |ks| ==> KeyLess(k, ks[j])
    ensures StrictlyAscending([k] + ks)
  {
    var r := [k] + ks;
    forall i, j | 0 <= i < j < |r| ensures KeyLess(r[i], r[j]) {
      assert r[j] == ks[j - 1];
      if i > 0 {
        assert r[i] == ks[i - 1];
      }
    }
  }

  /** A strictly ascending list has no repeated key. */
  lemma AscendingDistinct(ks: seq<Key>, i: int, j: int)
    requires StrictlyAscending(ks)
    requires 0 <= i < |ks| && 0 <= j < |ks| && i != j
    ensures ks[i] != ks[j]
  {
    if i < j {
      KeyLessIrreflexive(ks[i]);
    } else {
      KeyLessIrreflexive(ks[j]);
    }
  }
}
