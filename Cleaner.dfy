/** The cleaning stage (app.py lines 11-17): drop rows with a missing cell, drop exact
    duplicate rows keeping the first, then drop the columns AdvertisingPlatform and
    AdvertisingTool. */
module Cleaner {
  import opened Wrappers
  import opened Seqs
  import opened Table

  /** A row as read from the file: every cell may be missing. */
  datatype RawRow = RawRow(
    age: Option<int>,
    gender: Option<string>,
    income: Option<int>,
    campaignChannel: Option<string>,
    campaignType: Option<string>,
    adSpend: Option<real>,
    clickThroughRate: Option<real>,
    conversionRate: Option<real>,
    timeOnSite: Option<real>,
    socialShares: Option<int>,
    previousPurchases: Option<int>,
    loyaltyPoints: Option<int>,
    advertisingPlatform: Option<string>,
    advertisingTool: Option<string>)

  /** A row with every one of the fourteen cells present. */
  datatype FullRow = FullRow(
    age: int,
    gender: string,
    income: int,
    campaignChannel: string,
    campaignType: string,
    adSpend: real,
    clickThroughRate: real,
    conversionRate: real,
    timeOnSite: real,
    socialShares: int,
    previousPurchases: int,
    loyaltyPoints: int,
    advertisingPlatform: string,
    advertisingTool: string)

  /** No cell of the row is missing. */
  predicate Complete(r: RawRow) {
    && r.age.Some? && r.gender.Some? && r.income.Some?
    && r.campaignChannel.Some? && r.campaignType.Some?
    && r.adSpend.Some? && r.clickThroughRate.Some? && r.conversionRate.Some?
    && r.timeOnSite.Some? && r.socialShares.Some? && r.previousPurchases.Some?
    && r.loyaltyPoints.Some? && r.advertisingPlatform.Some? && r.advertisingTool.Some?
  }

  /** The raw row whose cells hold exactly the values of `f`. */
  function Embed(f: FullRow): (r: RawRow)
    ensures Complete(r)
  {
    RawRow(Some(f.age), Some(f.gender), Some(f.income), Some(f.campaignChannel),
           Some(f.campaignType), Some(f.adSpend), Some(f.clickThroughRate),
           Some(f.conversionRate), Some(f.timeOnSite), Some(f.socialShares),
           Some(f.previousPurchases), Some(f.loyaltyPoints),
           Some(f.advertisingPlatform), Some(f.advertisingTool))
  }

  /** The values of a complete raw row. */
  function Fill(r: RawRow): (f: FullRow)
    requires Complete(r)
    ensures Embed(f) == r
  {
    FullRow(r.age.value, r.gender.value, r.income.value, r.campaignChannel.value,
            r.campaignType.value, r.adSpend.value, r.clickThroughRate.value,
            r.conversionRate.value, r.timeOnSite.value, r.socialShares.value,
            r.previousPurchases.value, r.loyaltyPoints.value,
            r.advertisingPlatform.value, r.advertisingTool.value)
  }

  function EmbedAll(rows: seq<FullRow>): (raw: seq<RawRow>)
    ensures |raw| == |rows|
    ensures forall i :: 0 <= i < |rows| ==> raw[i] == Embed(rows[i])
  {
    seq(|rows|, i requires 0 <= i < |rows| => Embed(rows[i]))
  }

  /** `df.dropna()`: the complete rows, in order. */
  function DropMissing(raw: seq<RawRow>): seq<FullRow>
  {
    if raw == [] then []
    else if Complete(raw[0]) then [Fill(raw[0])] + DropMissing(raw[1..])
    else DropMissing(raw[1..])
  }

  /** The two columns judged irrelevant are removed; nothing else changes. */
  function Project(f: FullRow): (r: Record)
    ensures r.age == f.age && r.gender == f.gender && r.income == f.income
    ensures r.campaignChannel == f.campaignChannel && r.campaignType == f.campaignType
    ensures r.adSpend == f.adSpend && r.clickThroughRate == f.clickThroughRate
    ensures r.conversionRate == f.conversionRate && r.timeOnSite == f.timeOnSite
    ensures r.socialShares == f.socialShares && r.previousPurchases == f.previousPurchases
    ensures r.loyaltyPoints == f.loyaltyPoints
  {
    Record(f.age, f.gender, f.income, f.campaignChannel, f.campaignType, f.adSpend,
           f.clickThroughRate, f.conversionRate, f.timeOnSite, f.socialShares,
           f.previousPurchases, f.loyaltyPoints)
  }

  /** `df.drop(["AdvertisingPlatform", "AdvertisingTool"], axis=1)`: same rows, same order. */
  function DropColumns(rows: seq<FullRow>): (df: seq<Record>)
    ensures |df| == |rows|
    ensures forall i :: 0 <= i < |rows| ==> df[i] == Project(rows[i])
  {
    seq(|rows|, i requires 0 <= i < |rows| => Project(rows[i]))
  }

  /** The rows kept by the first two cleaning steps, before the columns are dropped. */
  function CleanRows(raw: seq<RawRow>): seq<FullRow> {
    Dedup(DropMissing(raw))
  }

  /** The three cleaning steps in the order the script applies them. */
  function Clean(raw: seq<RawRow>): seq<Record> {
    DropColumns(CleanRows(raw))
  }

  // ---------------------------------------------------------------------------------------
  // Dropping missing rows

  /** Missing-row removal keeps exactly the complete rows, each as often as it occurs. */
  lemma {:induction false} DropMissingCount(raw: seq<RawRow>, r: RawRow)
    ensures multiset(EmbedAll(DropMissing(raw)))[r] == if Complete(r) then multiset(raw)[r] else 0
  {
    if raw == [] {
    } else {
      assert raw == [raw[0]] + raw[1..];
      DropMissingCount(raw[1..], r);
      var tail := DropMissing(raw[1..]);
      if Complete(raw[0]) {
        assert EmbedAll([Fill(raw[0])] + tail) == [raw[0]] + EmbedAll(tail);
      }
    }
  }

  /** Missing-row removal keeps the order of the survivors. */
  lemma {:induction false} DropMissingSubsequence(raw: seq<RawRow>)
    ensures IsSubsequence(EmbedAll(DropMissing(raw)), raw)
  {
    if raw != [] {
      DropMissingSubsequence(raw[1..]);
      var tail := EmbedAll(DropMissing(raw[1..]));
      if Complete(raw[0]) {
        var e := EmbedAll([Fill(raw[0])] + DropMissing(raw[1..]));
        assert e == [raw[0]] + tail;
        assert e[1..] == tail;
      } else {
        SubsequenceSkip(tail, raw);
      }
    }
  }

  /** A table without missing cells passes missing-row removal unchanged. */
  lemma {:induction false} DropMissingOfComplete(rows: seq<FullRow>)
    ensures DropMissing(EmbedAll(rows)) == rows
  {
    if rows != [] {
      assert EmbedAll(rows)[1..] == EmbedAll(rows[1..]);
      DropMissingOfComplete(rows[1..]);
    }
  }

  // ---------------------------------------------------------------------------------------
  // Dropping columns

  /** Two full rows lose their difference under column removal exactly when they differ in
      nothing but AdvertisingPlatform and AdvertisingTool. */
  lemma ProjectForgetsExactlyAdColumns(a: FullRow, b: FullRow)
    ensures Project(a) == Project(b) <==>
            a.(advertisingPlatform := b.advertisingPlatform, advertisingTool := b.advertisingTool) == b
  {
    if Project(a) == Project(b) {
      assert Project(a).age == a.age && Project(b).age == b.age;
    }
  }

  // ---------------------------------------------------------------------------------------
  // The whole cleaner

  /** A record is in the cleaned table exactly when some complete raw row projects to it. */
  lemma CleanMembership(raw: seq<RawRow>, rec: Record)
    ensures rec in Clean(raw) <==>
            exists f :: Embed(f) in raw && Project(f) == rec
  {
    var rows := CleanRows(raw);
    if rec in Clean(raw) {
      var i :| 0 <= i < |rows| && Clean(raw)[i] == rec;
      var f := rows[i];
      DedupElements(DropMissing(raw), f);
      DropMissingCount(raw, Embed(f));
      assert Embed(f) in multiset(EmbedAll(DropMissing(raw))) by {
        var k :| 0 <= k < |DropMissing(raw)| && DropMissing(raw)[k] == f;
        assert EmbedAll(DropMissing(raw))[k] == Embed(f);
      }
      assert Project(f) == rec;
    }
    if f :| Embed(f) in raw && Project(f) == rec {
      DropMissingCount(raw, Embed(f));
      var e := EmbedAll(DropMissing(raw));
      assert Embed(f) in e;
      var k :| 0 <= k < |e| && e[k] == Embed(f);
      assert DropMissing(raw)[k] == f by {
        assert Embed(DropMissing(raw)[k]) == Embed(f);
        assert Fill(Embed(DropMissing(raw)[k])) == DropMissing(raw)[k];
      }
      DedupElements(DropMissing(raw), f);
      var j :| 0 <= j < |rows| && rows[j] == f;
      assert Clean(raw)[j] == rec;
    }
  }

  /** Cleaning never adds rows. */
  lemma {:induction false} CleanNoLonger(raw: seq<RawRow>)
    ensures |Clean(raw)| <= |DropMissing(raw)| <= |raw|
  {
    DropMissingNoLonger(raw);
    DedupFromNoLonger(DropMissing(raw), {});
  }

  lemma {:induction false} DropMissingNoLonger(raw: seq<RawRow>)
    ensures |DropMissing(raw)| <= |raw|
  {
    if raw != [] {
      DropMissingNoLonger(raw[1..]);
    }
  }

  /** The first two cleaning steps are idempotent: running them on their own (complete,
      duplicate-free) output changes nothing. */
  lemma CleanRowsIdempotent(raw: seq<RawRow>)
    ensures CleanRows(EmbedAll(CleanRows(raw))) == CleanRows(raw)
  {
    DropMissingOfComplete(CleanRows(raw));
    DedupIdempotent(DropMissing(raw));
  }

  /** Duplicates are removed before the two columns are dropped, so two rows that differ
      only in AdvertisingPlatform both survive and become equal records. */
  lemma CleanCanRepeatRecords(f: FullRow)
    ensures var g := f.(advertisingPlatform := f.advertisingPlatform + "'");
            var df := Clean([Embed(f), Embed(g)]);
            |df| == 2 && df[0] == df[1]
  {
    var g := f.(advertisingPlatform := f.advertisingPlatform + "'");
    assert |g.advertisingPlatform| != |f.advertisingPlatform|;
    var raw := [Embed(f), Embed(g)];
    assert raw[1..] == [Embed(g)] && raw[1..][1..] == [];
    assert Fill(Embed(f)) == f && Fill(Embed(g)) == g;
    assert DropMissing([Embed(g)]) == [g];
    assert DropMissing(raw) == [f, g];
    assert f != g;
    assert [f, g][1..] == [g];
    assert DedupFrom([g], {f} + {g}) == [] by {
      assert [g][1..] == [];
    }
    assert DedupFrom([g], {} + {f}) == [g] + DedupFrom([g][1..], {f} + {g});
    assert DedupFrom([f, g], {}) == [f] + DedupFrom([g], {} + {f});
    assert Dedup([f, g]) == [f, g];
  }

  /** When AdvertisingPlatform and AdvertisingTool are constant over the complete rows, the
      cleaned table has no repeated record, and removing duplicates again changes nothing. */
  lemma CleanDistinctWhenAdColumnsConstant(raw: seq<RawRow>, platform: string, tool: string)
    requires forall i :: 0 <= i < |raw| && Complete(raw[i]) ==>
               raw[i].advertisingPlatform == Some(platform) && raw[i].advertisingTool == Some(tool)
    ensures Distinct(Clean(raw))
    ensures Dedup(Clean(raw)) == Clean(raw)
  {
    var rows := CleanRows(raw);
    DedupDistinct(DropMissing(raw));
    forall i | 0 <= i < |rows|
      ensures rows[i].advertisingPlatform == platform && rows[i].advertisingTool == tool
    {
      var f := rows[i];
      DedupElements(DropMissing(raw), f);
      DropMissingCount(raw, Embed(f));
      var k :| 0 <= k < |DropMissing(raw)| && DropMissing(raw)[k] == f;
      assert EmbedAll(DropMissing(raw))[k] == Embed(f);
      assert Embed(f) in raw;
    }
    var df := Clean(raw);
    forall i, j | 0 <= i < j < |df| ensures df[i] != df[j] {
      ProjectForgetsExactlyAdColumns(rows[i], rows[j]);
    }
    DedupUnchangedIff(df);
  }

  /** A table of distinct complete rows with one extra copy of some row, placed anywhere
      after the original, cleans to one copy of every row. */
  lemma CleanKeepsOneCopy(p: seq<FullRow>, x: FullRow, c: seq<FullRow>)
    requires x in p && Distinct(p + c)
    ensures CleanRows(EmbedAll(p + [x] + c)) == p + c
  {
    DropMissingOfComplete(p + [x] + c);
    DedupOneCopyAnywhere(p, x, c);
  }

  /** The cleaning with the column removal moved before the duplicate removal: the order under
      which no two cleaned records are equal. */
  function CleanColumnsFirst(raw: seq<RawRow>): seq<Record> {
    Dedup(DropColumns(DropMissing(raw)))
  }

  /** With the columns removed first, the cleaned table has no repeated record. */
  lemma CleanColumnsFirstDistinct(raw: seq<RawRow>)
    ensures Distinct(CleanColumnsFirst(raw))
  {
    DedupDistinct(DropColumns(DropMissing(raw)));
  }

  /** Both orders keep the same records; they differ only in how often a record occurs. */
  lemma CleanColumnsFirstSameRecords(raw: seq<RawRow>, rec: Record)
    ensures rec in CleanColumnsFirst(raw) <==> rec in Clean(raw)
  {
    var complete := DropMissing(raw);
    var projected := DropColumns(complete);
    DedupElements(projected, rec);
    if rec in projected {
      var k :| 0 <= k < |projected| && projected[k] == rec;
      var f := complete[k];
      DedupElements(complete, f);
      var j :| 0 <= j < |CleanRows(raw)| && CleanRows(raw)[j] == f;
      assert Clean(raw)[j] == rec;
    }
    if rec in Clean(raw) {
      var j :| 0 <= j < |Clean(raw)| && Clean(raw)[j] == rec;
      var f := CleanRows(raw)[j];
      DedupElements(complete, f);
      var k :| 0 <= k < |complete| && complete[k] == f;
      assert projected[k] == rec;
    }
  }
}
