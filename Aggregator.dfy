/** The summaries shown on the dashboard (app.py lines 50-86): column sums and means, the
    income brackets of `pd.cut`, and `groupby` sums and means. */
module Aggregator {
  import opened Wrappers
  import opened Seqs
  import opened Table
  import opened Keys

  // ---------------------------------------------------------------------------------------
  // Column sums and means (the KPI tiles)

  /** The numeric columns that are summed or averaged. */
  datatype Column = ClickThroughRate | ConversionRate | AdSpend | LoyaltyPoints | PreviousPurchases

  function Value(r: Record, c: Column): real {
    match c
    case ClickThroughRate => r.clickThroughRate
    case ConversionRate => r.conversionRate
    case AdSpend => r.adSpend
    case LoyaltyPoints => r.loyaltyPoints as real
    case PreviousPurchases => r.previousPurchases as real
  }

  /** `df[c].sum()`; the sum of no rows is 0. */
  function Total(rows: seq<Record>, c: Column): real {
    if rows == [] then 0.0 else Value(rows[0], c) + Total(rows[1..], c)
  }

  /** `df[c].mean()`: no value (pandas' NaN) for an empty table, otherwise sum / count. */
  function Mean(rows: seq<Record>, c: Column): (m: Option<real>)
    ensures m == None <==> rows == []
    ensures m != None ==> m.value * (|rows| as real) == Total(rows, c)
  {
    if rows == [] then None else Some(Total(rows, c) / (|rows| as real))
  }

  /** If every value lies in [lo, hi], the sum lies in [n·lo, n·hi]. */
  lemma {:induction false} TotalBounds(rows: seq<Record>, c: Column, lo: real, hi: real)
    requires forall i :: 0 <= i < |rows| ==> lo <= Value(rows[i], c) <= hi
    ensures (|rows| as real) * lo <= Total(rows, c) <= (|rows| as real) * hi
  {
    if rows != [] {
      var tail := rows[1..];
      forall i | 0 <= i < |tail| ensures lo <= Value(tail[i], c) <= hi {
        assert tail[i] == rows[i + 1];
      }
      TotalBounds(tail, c, lo, hi);
      StepBounds(|tail| as real, |rows| as real, Total(tail, c), Value(rows[0], c), lo, hi);
    }
  }

  lemma StepBounds(m: real, n: real, t: real, x: real, lo: real, hi: real)
    requires n == m + 1.0
    requires m * lo <= t <= m * hi && lo <= x <= hi
    ensures n * lo <= x + t <= n * hi
  {
    assert n * lo == m * lo + lo;
    assert n * hi == m * hi + hi;
  }

  /** The mean of a non-empty table lies between any lower and upper bound of its values. */
  lemma MeanWithinBounds(rows: seq<Record>, c: Column, lo: real, hi: real)
    requires rows != []
    requires forall i :: 0 <= i < |rows| ==> lo <= Value(rows[i], c) <= hi
    ensures lo <= Mean(rows, c).value <= hi
  {
    TotalBounds(rows, c, lo, hi);
    var n := |rows| as real;
    assert Mean(rows, c).value == Total(rows, c) / n;
    DivideBounds(Total(rows, c), n, lo, hi);
  }

  lemma DivideBounds(t: real, n: real, lo: real, hi: real)
    requires n > 0.0 && n * lo <= t <= n * hi
    ensures lo <= t / n <= hi
  {
  }

  // ---------------------------------------------------------------------------------------
  // Income brackets (`pd.cut` with right-closed bins and labels)

  const IncomeEdges: seq<int> := [0, 30000, 60000, 90000, 120000, 150000]
  const IncomeLabels: seq<string> := ["<30k", "30k-60k", "60k-90k", "90k-120k", "120k+"]

  predicate Increasing(edges: seq<int>) {
    forall i, j :: 0 <= i < j < |edges| ==> edges[i] < edges[j]
  }

  /** `pd.cut(x, bins=edges, labels=labels)` with pandas' defaults `right=True`,
      `include_lowest=False`: bin i is the half-open interval (edges[i], edges[i+1]]; a value
      outside every bin gets no label. pandas refuses edges that do not increase and a label
      count other than one less than the edge count. */
  function Cut(x: int, edges: seq<int>, labels: seq<string>): (b: Option<string>)
    requires |edges| == |labels| + 1
    decreases |labels|
  {
    if labels == [] then None
    else if edges[0] < x <= edges[1] then Some(labels[0])
    else Cut(x, edges[1..], labels[1..])
  }

  /** `Cut` with increasing edges: a value gets a label exactly when it lies in
      (first edge, last edge], and then the label of the bin that contains it. */
  lemma {:induction false} CutBins(x: int, edges: seq<int>, labels: seq<string>)
    requires |edges| == |labels| + 1 && Increasing(edges)
    ensures Cut(x, edges, labels) != None <==> edges[0] < x <= edges[|labels|]
    ensures forall i :: 0 <= i < |labels| && edges[i] < x <= edges[i + 1] ==> Cut(x, edges, labels) == Some(labels[i])
    ensures Cut(x, edges, labels) != None ==>
              exists i :: 0 <= i < |labels| && edges[i] < x <= edges[i + 1] && Cut(x, edges, labels).value == labels[i]
    decreases |labels|
  {
    if labels != [] && !(edges[0] < x <= edges[1]) {
      var es, ls := edges[1..], labels[1..];
      IncreasingTail(edges);
      CutBins(x, es, ls);
      assert Cut(x, edges, labels) == Cut(x, es, ls);
      assert es[|ls|] == edges[|labels|];
      forall i | 0 <= i < |labels| && edges[i] < x <= edges[i + 1]
        ensures Cut(x, edges, labels) == Some(labels[i])
      {
        if i == 0 {
          assert false;
        }
        assert es[i - 1] == edges[i] && es[i] == edges[i + 1] && ls[i - 1] == labels[i];
      }
      if Cut(x, es, ls) != None {
        var i :| 0 <= i < |ls| && es[i] < x <= es[i + 1] && Cut(x, es, ls).value == ls[i];
        assert edges[i + 1] < x <= edges[i + 2] && ls[i] == labels[i + 1];
      }
    }
  }

  lemma IncreasingTail(edges: seq<int>)
    requires |edges| >= 2 && Increasing(edges)
    ensures Increasing(edges[1..])
    ensures edges[0] < edges[1]
  {
    var es := edges[1..];
    forall i, j | 0 <= i < j < |es| ensures es[i] < es[j] {
      assert es[i] == edges[i + 1] && es[j] == edges[j + 1];
    }
  }

  /** The income bracket of app.py:65. */
  function IncomeBracket(income: int): Option<string> {
    Cut(income, IncomeEdges, IncomeLabels)
  }

  /** Labels run in edge order; each income has at most one bracket, and none at or below 0
      or above 150000. */
  lemma IncomeBracketSpec(income: int)
    ensures var b := IncomeBracket(income);
            && (b == None <==> income <= 0 || 150000 < income)
            && (b != None ==> b.value in IncomeLabels)
            && (forall i :: 0 <= i < |IncomeLabels| ==>
                  (b == Some(IncomeLabels[i]) <==> IncomeEdges[i] < income <= IncomeEdges[i + 1]))
  {
    IncomeLabelsDistinct();
    IncreasingIncomeEdges();
    CutBins(income, IncomeEdges, IncomeLabels);
  }

  lemma IncreasingIncomeEdges()
    ensures Increasing(IncomeEdges)
  {
  }

  /** No two bracket labels are equal (they differ in their first character). */
  lemma IncomeLabelsDistinct()
    ensures Distinct(IncomeLabels)
  {
    var first := ['<', '3', '6', '9', '1'];
    assert forall i :: 0 <= i < |IncomeLabels| ==> IncomeLabels[i][0] == first[i];
    assert forall i, j :: 0 <= i < j < |first| ==> first[i] != first[j];
  }

  /** The boundary cases of the bracket edges. */
  lemma IncomeBracketBoundaries()
    ensures IncomeBracket(150000) == Some("120k+")
    ensures IncomeBracket(150001) == None
    ensures IncomeBracket(0) == None
    ensures IncomeBracket(30000) == Some("<30k")
    ensures IncomeBracket(30001) == Some("30k-60k")
  {
    assert IncomeLabels[4] == "120k+" && IncomeLabels[0] == "<30k" && IncomeLabels[1] == "30k-60k";
    IncomeBracketSpec(150000);
    IncomeBracketSpec(150001);
    IncomeBracketSpec(0);
    IncomeBracketSpec(30000);
    IncomeBracketSpec(30001);
  }

  // ---------------------------------------------------------------------------------------
  // Groups

  /** The columns grouped by value. */
  datatype KeyColumn = TimeOnSite | Age | CampaignType | SocialShares

  /** How rows are assigned to groups: by the value of a column, or by income bracket. */
  datatype Grouper = ByColumn(column: KeyColumn) | ByIncomeBracket

  function ColumnKey(r: Record, col: KeyColumn): Key {
    match col
    case TimeOnSite => Num(r.timeOnSite)
    case Age => Num(r.age as real)
    case CampaignType => Text(r.campaignType)
    case SocialShares => Num(r.socialShares as real)
  }

  /** The group of a row; rows without an income bracket belong to no bracket group. */
  function KeyOf(r: Record, g: Grouper): Option<Key> {
    match g
    case ByColumn(col) => Some(ColumnKey(r, col))
    case ByIncomeBracket =>
      match IncomeBracket(r.income)
      case None => None
      case Some(name) => Some(Text(name))
  }

  /** The number of rows in group `k`. */
  function CountWhere(rows: seq<Record>, g: Grouper, k: Key): nat {
    if rows == [] then 0
    else (if KeyOf(rows[0], g) == Some(k) then 1 else 0) + CountWhere(rows[1..], g, k)
  }

  /** The sum of column `c` over exactly the rows of group `k`. */
  function SumWhere(rows: seq<Record>, g: Grouper, c: Column, k: Key): real {
    if rows == [] then 0.0
    else (if KeyOf(rows[0], g) == Some(k) then Value(rows[0], c) else 0.0) + SumWhere(rows[1..], g, c, k)
  }

  lemma {:induction false} CountPositive(rows: seq<Record>, col: KeyColumn, k: Key, i: int)
    requires 0 <= i < |rows| && ColumnKey(rows[i], col) == k
    ensures CountWhere(rows, ByColumn(col), k) > 0
  {
    if i > 0 {
      assert rows[1..][i - 1] == rows[i];
      CountPositive(rows[1..], col, k, i - 1);
      assert CountWhere(rows, ByColumn(col), k) >= CountWhere(rows[1..], ByColumn(col), k);
    } else {
      assert KeyOf(rows[0], ByColumn(col)) == Some(k);
    }
  }

  /** The distinct values of a column, ascending: the index of `groupby(col)`. */
  function KeysOf(rows: seq<Record>, col: KeyColumn): seq<Key> {
    if rows == [] then [] else Insert(ColumnKey(rows[0], col), KeysOf(rows[1..], col))
  }

  /** The group keys are strictly ascending. */
  lemma {:induction false} KeysOfAscending(rows: seq<Record>, col: KeyColumn)
    ensures StrictlyAscending(KeysOf(rows, col))
  {
    if rows != [] {
      KeysOfAscending(rows[1..], col);
      InsertAscending(ColumnKey(rows[0], col), KeysOf(rows[1..], col));
    }
  }

  /** The group keys are exactly the values the column takes. */
  lemma {:induction false} KeysOfMembership(rows: seq<Record>, col: KeyColumn)
    ensures forall i :: 0 <= i < |rows| ==> ColumnKey(rows[i], col) in KeysOf(rows, col)
    ensures forall k :: k in KeysOf(rows, col) ==> exists i :: 0 <= i < |rows| && ColumnKey(rows[i], col) == k
  {
    if rows != [] {
      KeysOfMembership(rows[1..], col);
      var tail := KeysOf(rows[1..], col);
      InsertMembership(ColumnKey(rows[0], col), tail);
      forall i | 1 <= i < |rows| ensures ColumnKey(rows[i], col) in tail {
        assert rows[1..][i - 1] == rows[i];
      }
      forall k | k in tail ensures exists i :: 0 <= i < |rows| && ColumnKey(rows[i], col) == k {
        var i :| 0 <= i < |rows[1..]| && ColumnKey(rows[1..][i], col) == k;
        assert rows[i + 1] == rows[1..][i];
      }
    }
  }

  datatype Reducer = MeanOf | SumOf

  /** One row of a `groupby(...)[c].sum()` or `.mean()` result. */
  datatype Group = Group(key: Key, value: real)

  function Reduce(red: Reducer, sum: real, count: nat): real
    requires red == MeanOf ==> count > 0
  {
    if red == SumOf then sum else sum / (count as real)
  }

  lemma MeanTimesCount(sum: real, n: real)
    requires n > 0.0
    ensures (sum / n) * n == sum
  {
  }

  /** `df.groupby(col)[c].sum()` or `.mean()`: one group per distinct value of `col`, in
      key order, reduced by `red`. */
  function GroupBy(rows: seq<Record>, col: KeyColumn, c: Column, red: Reducer): (gs: seq<Group>)
    ensures |gs| == |KeysOf(rows, col)|
    ensures forall i :: 0 <= i < |gs| ==> gs[i].key == KeysOf(rows, col)[i]
  {
    var ks := KeysOf(rows, col);
    KeysPresent(rows, col);
    seq(|ks|, i requires 0 <= i < |ks| =>
      Group(ks[i], Reduce(red, SumWhere(rows, ByColumn(col), c, ks[i]), CountWhere(rows, ByColumn(col), ks[i]))))
  }

  lemma KeysPresent(rows: seq<Record>, col: KeyColumn)
    ensures forall i :: 0 <= i < |KeysOf(rows, col)| ==> CountWhere(rows, ByColumn(col), KeysOf(rows, col)[i]) > 0
  {
    var ks := KeysOf(rows, col);
    KeysOfMembership(rows, col);
    forall i | 0 <= i < |ks| ensures CountWhere(rows, ByColumn(col), ks[i]) > 0 {
      assert ks[i] in ks;
      var j :| 0 <= j < |rows| && ColumnKey(rows[j], col) == ks[i];
      CountPositive(rows, col, ks[i], j);
    }
  }

  /** The keys of a `groupby` result are strictly ascending, hence distinct. */
  lemma GroupByAscending(rows: seq<Record>, col: KeyColumn, c: Column, red: Reducer)
    ensures var gs := GroupBy(rows, col, c, red);
            forall i, j :: 0 <= i < j < |gs| ==> KeyLess(gs[i].key, gs[j].key)
  {
    var ks := KeysOf(rows, col);
    var gs := GroupBy(rows, col, c, red);
    KeysOfAscending(rows, col);
    forall i, j | 0 <= i < j < |gs| ensures KeyLess(gs[i].key, gs[j].key) {
      assert gs[i].key == ks[i] && gs[j].key == ks[j];
    }
  }

  /** The keys of a `groupby` result are exactly the values the column takes. */
  lemma GroupByKeysExact(rows: seq<Record>, col: KeyColumn, c: Column, red: Reducer)
    ensures var gs := GroupBy(rows, col, c, red);
            && (forall i :: 0 <= i < |gs| ==> exists j :: 0 <= j < |rows| && ColumnKey(rows[j], col) == gs[i].key)
            && (forall j :: 0 <= j < |rows| ==> exists i :: 0 <= i < |gs| && gs[i].key == ColumnKey(rows[j], col))
  {
    var ks := KeysOf(rows, col);
    var gs := GroupBy(rows, col, c, red);
    KeysOfMembership(rows, col);
    forall j | 0 <= j < |rows| ensures exists i :: 0 <= i < |gs| && gs[i].key == ColumnKey(rows[j], col) {
      var i :| 0 <= i < |ks| && ks[i] == ColumnKey(rows[j], col);
      assert gs[i].key == ks[i];
    }
    forall i | 0 <= i < |gs| ensures exists j :: 0 <= j < |rows| && ColumnKey(rows[j], col) == gs[i].key {
      assert gs[i].key == ks[i] && ks[i] in ks;
    }
  }

  /** In a `.sum()` result, group `i` is non-empty and its value is the sum over exactly the
      rows with its key. */
  lemma GroupSum(rows: seq<Record>, col: KeyColumn, c: Column, i: int)
    requires 0 <= i < |GroupBy(rows, col, c, SumOf)|
    ensures var g := GroupBy(rows, col, c, SumOf)[i];
            && CountWhere(rows, ByColumn(col), g.key) > 0
            && g.value == SumWhere(rows, ByColumn(col), c, g.key)
  {
    var ks := KeysOf(rows, col);
    KeysPresent(rows, col);
    assert GroupBy(rows, col, c, SumOf)[i]
        == Group(ks[i], Reduce(SumOf, SumWhere(rows, ByColumn(col), c, ks[i]), CountWhere(rows, ByColumn(col), ks[i])));
  }

  /** In a `.mean()` result, group `i` is non-empty and its value times its row count is the
      sum over exactly the rows with its key. */
  lemma GroupMean(rows: seq<Record>, col: KeyColumn, c: Column, i: int)
    requires 0 <= i < |GroupBy(rows, col, c, MeanOf)|
    ensures var g := GroupBy(rows, col, c, MeanOf)[i];
            var n := CountWhere(rows, ByColumn(col), g.key);
            && n > 0
            && g.value * (n as real) == SumWhere(rows, ByColumn(col), c, g.key)
  {
    var ks := KeysOf(rows, col);
    KeysPresent(rows, col);
    var n := CountWhere(rows, ByColumn(col), ks[i]);
    var s := SumWhere(rows, ByColumn(col), c, ks[i]);
    assert GroupBy(rows, col, c, MeanOf)[i] == Group(ks[i], Reduce(MeanOf, s, n));
    MeanTimesCount(s, n as real);
  }

  /** The sum of column `c` over the rows whose income lies in (lo, hi]: the reference
      definition of a bracket's total. */
  function SumIncomeIn(rows: seq<Record>, lo: int, hi: int, c: Column): real {
    if rows == [] then 0.0
    else (if lo < rows[0].income <= hi then Value(rows[0], c) else 0.0) + SumIncomeIn(rows[1..], lo, hi, c)
  }

  function BracketKeys(): (ks: seq<Key>)
    ensures |ks| == |IncomeLabels|
    ensures forall i :: 0 <= i < |ks| ==> ks[i] == Text(IncomeLabels[i])
  {
    seq(|IncomeLabels|, i requires 0 <= i < |IncomeLabels| => Text(IncomeLabels[i]))
  }

  lemma BracketKeysDistinct()
    ensures Distinct(BracketKeys())
  {
    var ks := BracketKeys();
    IncomeLabelsDistinct();
    forall i, j | 0 <= i < j < |ks| ensures ks[i] != ks[j] {
      assert ks[i] == Text(IncomeLabels[i]) && ks[j] == Text(IncomeLabels[j]);
    }
  }

  lemma {:induction false} SumWhereBracket(rows: seq<Record>, c: Column, i: int)
    requires 0 <= i < |IncomeLabels|
    ensures SumWhere(rows, ByIncomeBracket, c, Text(IncomeLabels[i]))
            == SumIncomeIn(rows, IncomeEdges[i], IncomeEdges[i + 1], c)
  {
    if rows != [] {
      IncomeBracketSpec(rows[0].income);
      SumWhereBracket(rows[1..], c, i);
    }
  }

  /** `df.groupby(income_brackets)['ConversionRate'].sum()`: grouping by a categorical lists
      every bracket in label order (pandas' `observed=False` default); a bracket's value is
      the ConversionRate sum over the rows whose income lies in that bracket, 0 if none. */
  function IncomeBracketSums(rows: seq<Record>): (gs: seq<Group>)
    ensures |gs| == |IncomeLabels|
    ensures forall i :: 0 <= i < |gs| ==> gs[i].key == Text(IncomeLabels[i])
    ensures forall i :: 0 <= i < |gs| ==>
              gs[i].value == SumIncomeIn(rows, IncomeEdges[i], IncomeEdges[i + 1], ConversionRate)
  {
    var ks := BracketKeys();
    forall i | 0 <= i < |ks| {
      SumWhereBracket(rows, ConversionRate, i);
    }
    seq(|ks|, i requires 0 <= i < |ks| => Group(ks[i], SumWhere(rows, ByIncomeBracket, ConversionRate, ks[i])))
  }

  // ---------------------------------------------------------------------------------------
  // Group sums add up to the total

  function SumValues(gs: seq<Group>): real {
    if gs == [] then 0.0 else gs[0].value + SumValues(gs[1..])
  }

  /** The sum of the group sums for the keys `ks`. */
  function SumOver(ks: seq<Key>, rows: seq<Record>, g: Grouper, c: Column): real {
    if ks == [] then 0.0 else SumWhere(rows, g, c, ks[0]) + SumOver(ks[1..], rows, g, c)
  }

  predicate KeyIn(r: Record, g: Grouper, ks: seq<Key>) {
    KeyOf(r, g).Some? && KeyOf(r, g).value in ks
  }

  /** The sum of column `c` over the rows whose group is one of `ks`. */
  function TotalKeyedIn(rows: seq<Record>, g: Grouper, c: Column, ks: seq<Key>): real {
    if rows == [] then 0.0
    else (if KeyIn(rows[0], g, ks) then Value(rows[0], c) else 0.0) + TotalKeyedIn(rows[1..], g, c, ks)
  }

  lemma {:induction false} SumOverNoRows(ks: seq<Key>, g: Grouper, c: Column)
    ensures SumOver(ks, [], g, c) == 0.0
  {
    if ks != [] {
      SumOverNoRows(ks[1..], g, c);
    }
  }

  lemma {:induction false} SumOverCons(ks: seq<Key>, rows: seq<Record>, g: Grouper, c: Column)
    requires rows != [] && Distinct(ks)
    ensures SumOver(ks, rows, g, c)
            == SumOver(ks, rows[1..], g, c) + (if KeyIn(rows[0], g, ks) then Value(rows[0], c) else 0.0)
  {
    if ks != [] {
      assert Distinct(ks[1..]) by {
        forall i, j | 0 <= i < j < |ks[1..]| ensures ks[1..][i] != ks[1..][j] {
          assert ks[1..][i] == ks[i + 1] && ks[1..][j] == ks[j + 1];
        }
      }
      SumOverCons(ks[1..], rows, g, c);
      assert ks[0] !in ks[1..] by {
        forall j | 0 <= j < |ks[1..]| ensures ks[1..][j] != ks[0] {
          assert ks[1..][j] == ks[j + 1];
        }
      }
      assert KeyIn(rows[0], g, ks) <==> KeyOf(rows[0], g) == Some(ks[0]) || KeyIn(rows[0], g, ks[1..]);
    }
  }

  /** Conservation: for distinct keys, the group sums add up to the sum over the rows that
      belong to one of those groups. */
  lemma {:induction false} SumOverConserves(ks: seq<Key>, rows: seq<Record>, g: Grouper, c: Column)
    requires Distinct(ks)
    ensures SumOver(ks, rows, g, c) == TotalKeyedIn(rows, g, c, ks)
  {
    if rows == [] {
      SumOverNoRows(ks, g, c);
    } else {
      SumOverCons(ks, rows, g, c);
      SumOverConserves(ks, rows[1..], g, c);
    }
  }

  lemma {:induction false} TotalKeyedInAll(rows: seq<Record>, g: Grouper, c: Column, ks: seq<Key>)
    requires forall i :: 0 <= i < |rows| ==> KeyIn(rows[i], g, ks)
    ensures TotalKeyedIn(rows, g, c, ks) == Total(rows, c)
  {
    if rows != [] {
      assert forall i :: 0 <= i < |rows[1..]| ==> rows[1..][i] == rows[i + 1];
      TotalKeyedInAll(rows[1..], g, c, ks);
    }
  }

  lemma {:induction false} TotalKeyedInBrackets(rows: seq<Record>, c: Column)
    ensures TotalKeyedIn(rows, ByIncomeBracket, c, BracketKeys()) == SumIncomeIn(rows, 0, 150000, c)
  {
    if rows != [] {
      TotalKeyedInBrackets(rows[1..], c);
      var b := IncomeBracket(rows[0].income);
      IncomeBracketSpec(rows[0].income);
      assert KeyIn(rows[0], ByIncomeBracket, BracketKeys()) <==> b != None by {
        if b != None {
          var i :| 0 <= i < |IncomeLabels| && IncomeLabels[i] == b.value;
          assert BracketKeys()[i] == Text(b.value);
        }
      }
    }
  }

  lemma {:induction false} SumValuesOfSums(gs: seq<Group>, ks: seq<Key>, rows: seq<Record>, g: Grouper, c: Column)
    requires |gs| == |ks|
    requires forall i :: 0 <= i < |gs| ==> gs[i].key == ks[i] && gs[i].value == SumWhere(rows, g, c, ks[i])
    ensures SumValues(gs) == SumOver(ks, rows, g, c)
  {
    if gs != [] {
      SumValuesOfSums(gs[1..], ks[1..], rows, g, c);
    }
  }

  /** The weighted form of the group means: sum over groups of mean times row count. */
  function WeightedSum(gs: seq<Group>, rows: seq<Record>, g: Grouper): real {
    if gs == [] then 0.0 else Weight(gs[0], rows, g) + WeightedSum(gs[1..], rows, g)
  }

  /** A group's value times the number of rows in it. */
  function Weight(gr: Group, rows: seq<Record>, g: Grouper): real {
    gr.value * (CountWhere(rows, g, gr.key) as real)
  }

  lemma {:induction false} WeightedSumOfMeans(gs: seq<Group>, ks: seq<Key>, rows: seq<Record>, g: Grouper, c: Column)
    requires |gs| == |ks|
    requires forall i :: 0 <= i < |gs| ==> gs[i].key == ks[i] && Weight(gs[i], rows, g) == SumWhere(rows, g, c, ks[i])
    ensures WeightedSum(gs, rows, g) == SumOver(ks, rows, g, c)
  {
    if gs != [] {
      assert forall i :: 0 <= i < |gs[1..]| ==> gs[1..][i] == gs[i + 1] && ks[1..][i] == ks[i + 1];
      WeightedSumOfMeans(gs[1..], ks[1..], rows, g, c);
    }
  }

  lemma GroupKeysDistinct(rows: seq<Record>, col: KeyColumn)
    ensures Distinct(KeysOf(rows, col))
  {
    var ks := KeysOf(rows, col);
    KeysOfAscending(rows, col);
    forall i, j | 0 <= i < j < |ks| ensures ks[i] != ks[j] {
      AscendingDistinct(ks, i, j);
    }
  }

  /** The per-group sums of a `groupby(...).sum()` add up to the column's total (for the
      PreviousPurchases sums by SocialShares of app.py:86 among others). */
  lemma GroupSumsAddUp(rows: seq<Record>, col: KeyColumn, c: Column)
    ensures SumValues(GroupBy(rows, col, c, SumOf)) == Total(rows, c)
  {
    var ks := KeysOf(rows, col);
    var gs := GroupBy(rows, col, c, SumOf);
    forall i | 0 <= i < |gs| ensures gs[i].key == ks[i] && gs[i].value == SumWhere(rows, ByColumn(col), c, ks[i]) {
      GroupSum(rows, col, c, i);
    }
    GroupKeysDistinct(rows, col);
    SumValuesOfSums(gs, ks, rows, ByColumn(col), c);
    SumOverConserves(ks, rows, ByColumn(col), c);
    KeysOfMembership(rows, col);
    forall i | 0 <= i < |rows| ensures KeyIn(rows[i], ByColumn(col), ks) {
      assert ColumnKey(rows[i], col) in ks;
    }
    TotalKeyedInAll(rows, ByColumn(col), c, ks);
  }

  /** The group means of a `groupby(...).mean()`, weighted by group size, add up to the
      column's total. */
  lemma GroupMeansWeighted(rows: seq<Record>, col: KeyColumn, c: Column)
    ensures var gs := GroupBy(rows, col, c, MeanOf);
            WeightedSum(gs, rows, ByColumn(col)) == Total(rows, c)
  {
    var ks := KeysOf(rows, col);
    var gs := GroupBy(rows, col, c, MeanOf);
    forall i | 0 <= i < |gs|
      ensures gs[i].key == ks[i] && Weight(gs[i], rows, ByColumn(col)) == SumWhere(rows, ByColumn(col), c, ks[i])
    {
      GroupMean(rows, col, c, i);
    }
    GroupKeysDistinct(rows, col);
    WeightedSumOfMeans(gs, ks, rows, ByColumn(col), c);
    SumOverConserves(ks, rows, ByColumn(col), c);
    KeysOfMembership(rows, col);
    forall i | 0 <= i < |rows| ensures KeyIn(rows[i], ByColumn(col), ks) {
      assert ColumnKey(rows[i], col) in ks;
    }
    TotalKeyedInAll(rows, ByColumn(col), c, ks);
  }

  /** The bracket sums add up to the ConversionRate sum over the rows that have a bracket,
      that is, whose income lies in (0, 150000]. */
  lemma BracketSumsAddUp(rows: seq<Record>)
    ensures SumValues(IncomeBracketSums(rows)) == SumIncomeIn(rows, 0, 150000, ConversionRate)
  {
    var ks := BracketKeys();
    var gs := IncomeBracketSums(rows);
    forall i | 0 <= i < |gs| ensures gs[i].key == ks[i] && gs[i].value == SumWhere(rows, ByIncomeBracket, ConversionRate, ks[i]) {
      SumWhereBracket(rows, ConversionRate, i);
    }
    SumValuesOfSums(gs, ks, rows, ByIncomeBracket, ConversionRate);
    BracketKeysDistinct();
    SumOverConserves(ks, rows, ByIncomeBracket, ConversionRate);
    TotalKeyedInBrackets(rows, ConversionRate);
  }
}
