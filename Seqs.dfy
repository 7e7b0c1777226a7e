/** Generic facts about sequences: distinctness, subsequences and keep-first duplicate removal. */
module Seqs {

  /** No element occurs twice. */
  ghost predicate Distinct<T>(s: seq<T>) {
    forall i, j :: 0 <= i < j < |s| ==> s[i] != s[j]
  }

  /** `t` is obtained from `s` by deleting some positions, without reordering. */
  ghost predicate IsSubsequence<T>(t: seq<T>, s: seq<T>)
    decreases |s|
  {
    if t == [] then true
    else if s == [] then false
    else (t[0] == s[0] && IsSubsequence(t[1..], s[1..])) || IsSubsequence(t, s[1..])
  }

  /** The scan behind duplicate removal: an element is kept when it is not in `seen`,
      and is then added to `seen`. */
  function DedupFrom<T(==)>(s: seq<T>, seen: set<T>): seq<T>
  {
    if s == [] then []
    else if s[0] in seen then DedupFrom(s[1..], seen)
    else [s[0]] + DedupFrom(s[1..], seen + {s[0]})
  }

  /** Duplicate removal never adds elements. */
  lemma {:induction false} DedupFromNoLonger<T>(s: seq<T>, seen: set<T>)
    ensures |DedupFrom(s, seen)| <= |s|
  {
    if s != [] {
      DedupFromNoLonger(s[1..], if s[0] in seen then seen else seen + {s[0]});
    }
  }

  /** Duplicate removal that keeps the first occurrence of every element. */
  function Dedup<T(==)>(s: seq<T>): seq<T> {
    DedupFrom(s, {})
  }

  lemma {:induction false} DedupFromElements<T>(s: seq<T>, seen: set<T>, x: T)
    ensures x in DedupFrom(s, seen) <==> x in s && x !in seen
  {
    if s != [] {
      assert s == [s[0]] + s[1..];
      if s[0] in seen {
        DedupFromElements(s[1..], seen, x);
      } else {
        DedupFromElements(s[1..], seen + {s[0]}, x);
      }
    }
  }

  lemma {:induction false} DedupFromDistinct<T>(s: seq<T>, seen: set<T>)
    ensures Distinct(DedupFrom(s, seen))
  {
    if s != [] {
      if s[0] in seen {
        DedupFromDistinct(s[1..], seen);
      } else {
        var rest := DedupFrom(s[1..], seen + {s[0]});
        DedupFromDistinct(s[1..], seen + {s[0]});
        DedupFromElements(s[1..], seen + {s[0]}, s[0]);
        var r := [s[0]] + rest;
        forall i, j | 0 <= i < j < |r| ensures r[i] != r[j] {
          if i == 0 {
            assert r[j] == rest[j - 1];
          } else {
            assert r[i] == rest[i - 1] && r[j] == rest[j - 1];
          }
        }
      }
    }
  }

  lemma {:induction false} DedupFromSubsequence<T>(s: seq<T>, seen: set<T>)
    ensures IsSubsequence(DedupFrom(s, seen), s)
  {
    if s != [] {
      if s[0] in seen {
        DedupFromSubsequence(s[1..], seen);
        SubsequenceSkip(DedupFrom(s[1..], seen), s);
      } else {
        DedupFromSubsequence(s[1..], seen + {s[0]});
        var r := [s[0]] + DedupFrom(s[1..], seen + {s[0]});
        assert r[1..] == DedupFrom(s[1..], seen + {s[0]});
      }
    }
  }

  /** Dropping the head of `s` keeps every subsequence of its tail a subsequence of `s`. */
  lemma SubsequenceSkip<T>(t: seq<T>, s: seq<T>)
    requires s != [] && IsSubsequence(t, s[1..])
    ensures IsSubsequence(t, s)
  {
  }

  lemma {:induction false} DedupFromSnoc<T>(s: seq<T>, x: T, seen: set<T>)
    ensures DedupFrom(s + [x], seen) == DedupFrom(s, seen) + (if x in s || x in seen then [] else [x])
  {
    if s == [] {
      assert [] + [x] == [x];
    } else {
      assert (s + [x])[0] == s[0] && (s + [x])[1..] == s[1..] + [x];
      if s[0] in seen {
        DedupFromSnoc(s[1..], x, seen);
      } else {
        DedupFromSnoc(s[1..], x, seen + {s[0]});
      }
      assert x in s <==> x == s[0] || x in s[1..];
    }
  }

  lemma {:induction false} DedupFromOfDistinct<T>(s: seq<T>, seen: set<T>)
    requires Distinct(s)
    requires forall i :: 0 <= i < |s| ==> s[i] !in seen
    ensures DedupFrom(s, seen) == s
  {
    if s != [] {
      forall i | 0 <= i < |s[1..]| ensures s[1..][i] !in seen + {s[0]} {
        assert s[1..][i] == s[i + 1];
      }
      DedupFromOfDistinct(s[1..], seen + {s[0]});
    }
  }

  /** Exactly the elements of `s` survive duplicate removal. */
  lemma DedupElements<T>(s: seq<T>, x: T)
    ensures x in Dedup(s) <==> x in s
  {
    DedupFromElements(s, {}, x);
  }

  /** After duplicate removal no element occurs twice. */
  lemma DedupDistinct<T>(s: seq<T>)
    ensures Distinct(Dedup(s))
  {
    DedupFromDistinct(s, {});
  }

  /** The survivors keep their relative order. */
  lemma DedupSubsequence<T>(s: seq<T>)
    ensures IsSubsequence(Dedup(s), s)
  {
    DedupFromSubsequence(s, {});
  }

  /** Keep-first: appending an element already present adds nothing, appending a new one
      adds it at the end; this determines the result on every sequence. */
  lemma DedupSnoc<T>(s: seq<T>, x: T)
    ensures Dedup(s + [x]) == Dedup(s) + (if x in s then [] else [x])
  {
    DedupFromSnoc(s, x, {});
  }

  /** Duplicate removal changes a sequence exactly when it has a repeated element. */
  lemma DedupUnchangedIff<T>(s: seq<T>)
    ensures Dedup(s) == s <==> Distinct(s)
  {
    if Distinct(s) {
      DedupFromOfDistinct(s, {});
    } else {
      DedupDistinct(s);
    }
  }

  /** Removing duplicates twice is the same as removing them once. */
  lemma DedupIdempotent<T>(s: seq<T>)
    ensures Dedup(Dedup(s)) == Dedup(s)
  {
    DedupDistinct(s);
    DedupUnchangedIff(Dedup(s));
  }

  /** A table of distinct rows followed by a copy of one of them keeps a single copy. */
  lemma DedupDuplicatedRow<T>(s: seq<T>, x: T)
    requires Distinct(s) && x in s
    ensures Dedup(s + [x]) == s
  {
    DedupSnoc(s, x);
    DedupUnchangedIff(s);
  }

  /** Distinct rows with one extra copy of an earlier row inserted anywhere after it keep
      exactly one copy of every row. */
  lemma {:induction false} DedupOneCopyAnywhere<T>(p: seq<T>, x: T, c: seq<T>)
    requires x in p && Distinct(p + c)
    ensures Dedup(p + [x] + c) == p + c
    decreases |c|
  {
    if c == [] {
      assert p + [x] + c == p + [x] && p + c == p;
      DedupDuplicatedRow(p, x);
    } else {
      var c', y := c[..|c| - 1], c[|c| - 1];
      assert c == c' + [y];
      assert p + c == (p + c') + [y];
      assert p + [x] + c == (p + [x] + c') + [y];
      assert Distinct(p + c') by {
        var s, t := p + c', p + c;
        forall i, j | 0 <= i < j < |s| ensures s[i] != s[j] {
          assert s[i] == t[i] && s[j] == t[j];
        }
      }
      DedupOneCopyAnywhere(p, x, c');
      assert y !in p + [x] + c' by {
        var t := p + c;
        forall k | 0 <= k < |p + c'| ensures (p + c')[k] != y {
          assert (p + c')[k] == t[k] && y == t[|t| - 1];
        }
        assert x in p + c' by {
          var k :| 0 <= k < |p| && p[k] == x;
          assert (p + c')[k] == x;
        }
        assert forall z :: z in p + [x] + c' ==> z in p + c';
      }
      DedupSnoc(p + [x] + c', y);
    }
  }
}
