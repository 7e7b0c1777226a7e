/** The sidebar filters (app.py lines 26-45): an inclusive age range, an optional campaign
    channel, an optional gender and an inclusive income range, applied one after another. */
module FilterEngine {
  import opened Seqs
  import opened Table

  /** A select-box choice: the "All" entry, or one concrete category. */
  datatype Choice = Any | Is(value: string)

  /** The script compares the selected string with the literal 'All' (app.py:39, :42). */
  function SelectionChoice(selection: string): (c: Choice)
    ensures c == Any <==> selection == "All"
    ensures c != Any ==> c == Is(selection)
  {
    if selection == "All" then Any else Is(selection)
  }

  /** The values the sidebar hands to the filter chain. */
  datatype FilterSpec = FilterSpec(
    ageMin: int, ageMax: int,
    channel: Choice, gender: Choice,
    incomeMin: int, incomeMax: int)

  /** One boolean mask of the chain. */
  datatype Cond =
    | AgeBetween(lo: int, hi: int)
    | ChannelIs(channel: Choice)
    | GenderIs(gender: Choice)
    | IncomeBetween(lo: int, hi: int)

  predicate Admits(c: Choice, v: string) {
    c.Any? || c.value == v
  }

  predicate Holds(c: Cond, r: Record) {
    match c
    case AgeBetween(lo, hi) => lo <= r.age && r.age <= hi
    case ChannelIs(ch) => Admits(ch, r.campaignChannel)
    case GenderIs(g) => Admits(g, r.gender)
    case IncomeBetween(lo, hi) => lo <= r.income && r.income <= hi
  }

  predicate HoldsAll(cs: seq<Cond>, r: Record) {
    forall i :: 0 <= i < |cs| ==> Holds(cs[i], r)
  }

  /** `rows[mask]`: the rows, in order, for which every condition of `cs` holds. */
  function Where(rows: seq<Record>, cs: seq<Cond>): seq<Record>
  {
    if rows == [] then []
    else if HoldsAll(cs, rows[0]) then [rows[0]] + Where(rows[1..], cs)
    else Where(rows[1..], cs)
  }

  /** The four conditions of a filter specification, in the order the script applies them. */
  function Conditions(spec: FilterSpec): (cs: seq<Cond>)
    ensures forall r :: HoldsAll(cs, r) <==> Satisfies(r, spec)
  {
    var cs := [AgeBetween(spec.ageMin, spec.ageMax), ChannelIs(spec.channel),
               GenderIs(spec.gender), IncomeBetween(spec.incomeMin, spec.incomeMax)];
    assert forall r :: HoldsAll(cs, r) ==> Holds(cs[0], r) && Holds(cs[1], r) && Holds(cs[2], r) && Holds(cs[3], r);
    cs
  }

  /** The intended single conjunctive filter, stated directly on the record. */
  predicate Satisfies(r: Record, spec: FilterSpec) {
    && spec.ageMin <= r.age <= spec.ageMax
    && (spec.channel == Any || r.campaignChannel == spec.channel.value)
    && (spec.gender == Any || r.gender == spec.gender.value)
    && spec.incomeMin <= r.income <= spec.incomeMax
  }

  /** The filter chain of app.py lines 36-45, rebinding `filtered` step by step: it returns
      the records of `df` that satisfy every condition, in their original order. */
  method ApplyFilters(df: seq<Record>, spec: FilterSpec) returns (filtered: seq<Record>)
    ensures filtered == Where(df, Conditions(spec))
    ensures IsSubsequence(filtered, df)
    ensures forall r :: r in filtered <==> r in df && Satisfies(r, spec)
    ensures forall r :: multiset(filtered)[r] == if Satisfies(r, spec) then multiset(df)[r] else 0
  {
    var age := AgeBetween(spec.ageMin, spec.ageMax);
    var channel := ChannelIs(spec.channel);
    var gender := GenderIs(spec.gender);
    var income := IncomeBetween(spec.incomeMin, spec.incomeMax);

    filtered := Where(df, [age]);
    ghost var applied := [age];
    if spec.channel != Any {
      WhereSequential(df, applied, [channel]);
      filtered := Where(filtered, [channel]);
    } else {
      forall r ensures HoldsAll(applied, r) <==> HoldsAll(applied + [channel], r) {
        HoldsAllAppend(applied, [channel], r);
      }
      WhereSameConditions(df, applied, applied + [channel]);
    }
    applied := applied + [channel];
    if spec.gender != Any {
      WhereSequential(df, applied, [gender]);
      filtered := Where(filtered, [gender]);
    } else {
      forall r ensures HoldsAll(applied, r) <==> HoldsAll(applied + [gender], r) {
        HoldsAllAppend(applied, [gender], r);
      }
      WhereSameConditions(df, applied, applied + [gender]);
    }
    applied := applied + [gender];
    WhereSequential(df, applied, [income]);
    filtered := Where(filtered, [income]);
    applied := applied + [income];
    assert applied == Conditions(spec);

    WhereSubsequence(df, applied);
    forall r ensures r in filtered <==> r in df && Satisfies(r, spec) {
      WhereMembership(df, applied, r);
    }
    forall r ensures multiset(filtered)[r] == if Satisfies(r, spec) then multiset(df)[r] else 0 {
      WhereCount(df, applied, r);
    }
  }

  // ---------------------------------------------------------------------------------------
  // Properties of a single filter

  /** A filter keeps each row that passes as often as it occurs, and no other row. */
  lemma {:induction false} WhereCount(rows: seq<Record>, cs: seq<Cond>, r: Record)
    ensures multiset(Where(rows, cs))[r] == if HoldsAll(cs, r) then multiset(rows)[r] else 0
  {
    if rows != [] {
      assert rows == [rows[0]] + rows[1..];
      WhereCount(rows[1..], cs, r);
    }
  }

  lemma WhereMembership(rows: seq<Record>, cs: seq<Cond>, r: Record)
    ensures r in Where(rows, cs) <==> r in rows && HoldsAll(cs, r)
  {
    WhereCount(rows, cs, r);
    assert r in Where(rows, cs) <==> multiset(Where(rows, cs))[r] > 0;
    assert r in rows <==> multiset(rows)[r] > 0;
  }

  /** A filter keeps the relative order of the rows it keeps. */
  lemma {:induction false} WhereSubsequence(rows: seq<Record>, cs: seq<Cond>)
    ensures IsSubsequence(Where(rows, cs), rows)
  {
    if rows != [] {
      WhereSubsequence(rows[1..], cs);
      if HoldsAll(cs, rows[0]) {
        assert ([rows[0]] + Where(rows[1..], cs))[1..] == Where(rows[1..], cs);
      } else {
        SubsequenceSkip(Where(rows[1..], cs), rows);
      }
    }
  }

  /** A filter returns its input unchanged exactly when every row passes. */
  lemma {:induction false} WhereUnchangedIff(rows: seq<Record>, cs: seq<Cond>)
    ensures Where(rows, cs) == rows <==> forall i :: 0 <= i < |rows| ==> HoldsAll(cs, rows[i])
  {
    if rows != [] {
      WhereUnchangedIff(rows[1..], cs);
      WhereNoLonger(rows[1..], cs);
      if forall i :: 0 <= i < |rows| ==> HoldsAll(cs, rows[i]) {
        assert forall i :: 0 <= i < |rows[1..]| ==> HoldsAll(cs, rows[1..][i]) by {
          forall i | 0 <= i < |rows[1..]| ensures HoldsAll(cs, rows[1..][i]) {
            assert rows[1..][i] == rows[i + 1];
          }
        }
      } else if HoldsAll(cs, rows[0]) {
        var i :| 0 <= i < |rows| && !HoldsAll(cs, rows[i]);
        assert rows[1..][i - 1] == rows[i];
        var tail := Where(rows[1..], cs);
        assert tail != rows[1..];
        assert Where(rows, cs) == [rows[0]] + tail;
        assert ([rows[0]] + tail)[1..] == tail;
        assert Where(rows, cs)[1..] != rows[1..];
      } else {
        assert |Where(rows, cs)| < |rows|;
      }
    }
  }

  lemma {:induction false} WhereNoLonger(rows: seq<Record>, cs: seq<Cond>)
    ensures |Where(rows, cs)| <= |rows|
  {
    if rows != [] {
      WhereNoLonger(rows[1..], cs);
    }
  }

  // ---------------------------------------------------------------------------------------
  // Chaining filters

  lemma HoldsAllAppend(cs: seq<Cond>, ds: seq<Cond>, r: Record)
    ensures HoldsAll(cs + ds, r) <==> HoldsAll(cs, r) && HoldsAll(ds, r)
  {
    if HoldsAll(cs, r) && HoldsAll(ds, r) {
      forall i | 0 <= i < |cs + ds| ensures Holds((cs + ds)[i], r) {
        if i >= |cs| {
          assert (cs + ds)[i] == ds[i - |cs|];
        }
      }
    }
    if HoldsAll(cs + ds, r) {
      forall i | 0 <= i < |cs| ensures Holds(cs[i], r) {
        assert (cs + ds)[i] == cs[i];
      }
      forall i | 0 <= i < |ds| ensures Holds(ds[i], r) {
        assert (cs + ds)[|cs| + i] == ds[i];
      }
    }
  }

  /** Narrowing a filtered table by further conditions is one filter by all of them. */
  lemma {:induction false} WhereSequential(rows: seq<Record>, cs: seq<Cond>, ds: seq<Cond>)
    ensures Where(Where(rows, cs), ds) == Where(rows, cs + ds)
  {
    if rows != [] {
      WhereSequential(rows[1..], cs, ds);
      HoldsAllAppend(cs, ds, rows[0]);
      if HoldsAll(cs, rows[0]) {
        var w := [rows[0]] + Where(rows[1..], cs);
        assert w[0] == rows[0] && w[1..] == Where(rows[1..], cs);
      }
    }
  }

  /** Two condition lists that hold of the same records filter alike. */
  lemma {:induction false} WhereSameConditions(rows: seq<Record>, cs: seq<Cond>, ds: seq<Cond>)
    requires forall r :: HoldsAll(cs, r) <==> HoldsAll(ds, r)
    ensures Where(rows, cs) == Where(rows, ds)
  {
    if rows != [] {
      WhereSameConditions(rows[1..], cs, ds);
    }
  }

  // ---------------------------------------------------------------------------------------
  // The slider ranges and the "no constraint" specification

  /** The two integer columns the sliders range over (app.py:26 and :33). */
  datatype SliderColumn = AgeSlider | IncomeSlider

  function Cell(r: Record, col: SliderColumn): int {
    match col
    case AgeSlider => r.age
    case IncomeSlider => r.income
  }

  /** `int(df[col].min())`: defined only for a non-empty table. */
  function MinOf(rows: seq<Record>, col: SliderColumn): (m: int)
    requires rows != []
    ensures forall i :: 0 <= i < |rows| ==> m <= Cell(rows[i], col)
    ensures exists i :: 0 <= i < |rows| && Cell(rows[i], col) == m
  {
    if |rows| == 1 then Cell(rows[0], col)
    else
      var m := MinOf(rows[1..], col);
      assert rows[1..][0] == rows[1];
      if Cell(rows[0], col) <= m then Cell(rows[0], col) else m
  }

  /** `int(df[col].max())`: defined only for a non-empty table. */
  function MaxOf(rows: seq<Record>, col: SliderColumn): (m: int)
    requires rows != []
    ensures forall i :: 0 <= i < |rows| ==> Cell(rows[i], col) <= m
    ensures exists i :: 0 <= i < |rows| && Cell(rows[i], col) == m
  {
    if |rows| == 1 then Cell(rows[0], col)
    else
      var m := MaxOf(rows[1..], col);
      assert rows[1..][0] == rows[1];
      if m <= Cell(rows[0], col) then Cell(rows[0], col) else m
  }

  /** The filters with both choices at "All" and both ranges spanning the data's own minimum and
      maximum (the income slider's default, app.py:33) return the table unchanged. */
  lemma FullRangeKeepsTable(df: seq<Record>)
    requires df != []
    ensures var spec := FilterSpec(MinOf(df, AgeSlider), MaxOf(df, AgeSlider), Any, Any,
                                   MinOf(df, IncomeSlider), MaxOf(df, IncomeSlider));
            Where(df, Conditions(spec)) == df
  {
    var spec := FilterSpec(MinOf(df, AgeSlider), MaxOf(df, AgeSlider), Any, Any,
                           MinOf(df, IncomeSlider), MaxOf(df, IncomeSlider));
    forall i | 0 <= i < |df| ensures HoldsAll(Conditions(spec), df[i]) {
      assert Satisfies(df[i], spec);
    }
    WhereUnchangedIff(df, Conditions(spec));
  }

  /** Five records aged 20, 25, 40, 70 and 30 under the range 18-65, with both choices at "All"
      and an income range covering every record: only the 70-year-old is dropped. */
  lemma FiveRecordScenario(rs: seq<Record>, incomeMin: int, incomeMax: int)
    requires |rs| == 5
    requires rs[0].age == 20 && rs[1].age == 25 && rs[2].age == 40 && rs[3].age == 70 && rs[4].age == 30
    requires forall i :: 0 <= i < 5 ==> incomeMin <= rs[i].income <= incomeMax
    ensures Where(rs, Conditions(FilterSpec(18, 65, Any, Any, incomeMin, incomeMax)))
            == [rs[0], rs[1], rs[2], rs[4]]
  {
    var cs := Conditions(FilterSpec(18, 65, Any, Any, incomeMin, incomeMax));
    assert rs[1..][1..][1..][1..][1..] == [];
    assert Where(rs[1..][1..][1..][1..], cs) == [rs[4]];
    assert Where(rs[1..][1..][1..], cs) == [rs[4]];
    assert Where(rs[1..][1..], cs) == [rs[2], rs[4]];
    assert Where(rs[1..], cs) == [rs[1], rs[2], rs[4]];
  }
}
