/** The script from top to bottom (app.py lines 11-86): clean the table, build the filter
    from the sidebar values, filter, and compute the three KPI values and the five chart
    series handed to the page. */
module Dashboard {
  import opened Wrappers
  import opened Seqs
  import opened Table
  import opened Cleaner
  import opened FilterEngine
  import opened Keys
  import opened Aggregator

  /** The three KPI tiles (app.py:50-57). */
  datatype Kpis = Kpis(averageCtr: Option<real>, averageConversionRate: Option<real>, totalAdSpend: real)

  /** The five chart series (app.py:65-86), each an ordered key-to-value mapping. */
  datatype Charts = Charts(
    conversionByIncome: seq<Group>,
    timeConversion: seq<Group>,
    ageConversion: seq<Group>,
    campaignConversion: seq<Group>,
    repeatPurchasesByCampaign: seq<Group>)

  /** The KPI values: the two averages have no value for an empty table; the total ad spend is
      the column sum, 0 for an empty table. */
  function KpisOf(filtered: seq<Record>): (k: Kpis)
    ensures k.averageCtr == None <==> filtered == []
    ensures k.averageCtr != None ==> k.averageCtr.value * (|filtered| as real) == Total(filtered, ClickThroughRate)
    ensures k.averageConversionRate == None <==> filtered == []
    ensures k.averageConversionRate != None ==>
              k.averageConversionRate.value * (|filtered| as real) == Total(filtered, ConversionRate)
    ensures k.totalAdSpend == Total(filtered, AdSpend)
    ensures filtered == [] ==> k.totalAdSpend == 0.0
  {
    Kpis(Mean(filtered, ClickThroughRate), Mean(filtered, ConversionRate), Total(filtered, AdSpend))
  }

  /** The chart series. The chart headed "Social Shares by Campaign Type" groups
      PreviousPurchases by SocialShares, as coded at app.py:86. */
  function ChartsOf(filtered: seq<Record>): (c: Charts)
    ensures |c.conversionByIncome| == |IncomeLabels|
    ensures forall i :: 0 <= i < |IncomeLabels| ==>
              c.conversionByIncome[i].key == Text(IncomeLabels[i]) &&
              c.conversionByIncome[i].value == SumIncomeIn(filtered, IncomeEdges[i], IncomeEdges[i + 1], ConversionRate)
    ensures SumValues(c.conversionByIncome) == SumIncomeIn(filtered, 0, 150000, ConversionRate)
    ensures c.timeConversion == GroupBy(filtered, TimeOnSite, ConversionRate, MeanOf)
    ensures c.ageConversion == GroupBy(filtered, Age, ConversionRate, MeanOf)
    ensures c.campaignConversion == GroupBy(filtered, CampaignType, LoyaltyPoints, MeanOf)
    ensures c.repeatPurchasesByCampaign == GroupBy(filtered, SocialShares, PreviousPurchases, SumOf)
    ensures SumValues(c.repeatPurchasesByCampaign) == Total(filtered, PreviousPurchases)
  {
    BracketSumsAddUp(filtered);
    GroupSumsAddUp(filtered, SocialShares, PreviousPurchases);
    Charts(
      IncomeBracketSums(filtered),
      GroupBy(filtered, TimeOnSite, ConversionRate, MeanOf),
      GroupBy(filtered, Age, ConversionRate, MeanOf),
      GroupBy(filtered, CampaignType, LoyaltyPoints, MeanOf),
      GroupBy(filtered, SocialShares, PreviousPurchases, SumOf))
  }

  /** One run of the script for the sidebar values given: the cleaning steps, the filter
      chain, then the summaries of the filtered table. */
  method Run(raw: seq<RawRow>, ageMin: int, ageMax: int, channelSelection: string,
             genderSelection: string, incomeMin: int, incomeMax: int)
    returns (filtered: seq<Record>, kpis: Kpis, charts: Charts)
    ensures var spec := FilterSpec(ageMin, ageMax, SelectionChoice(channelSelection),
                                   SelectionChoice(genderSelection), incomeMin, incomeMax);
            && filtered == Where(Clean(raw), Conditions(spec))
            && IsSubsequence(filtered, Clean(raw))
            && (forall r :: r in filtered <==> r in Clean(raw) && Satisfies(r, spec))
            && (forall r :: multiset(filtered)[r] == if Satisfies(r, spec) then multiset(Clean(raw))[r] else 0)
    ensures kpis == KpisOf(filtered) && charts == ChartsOf(filtered)
  {
    // Cleaning, app.py:11-17
    var complete := DropMissing(raw);
    var unique := Dedup(complete);
    var df := DropColumns(unique);

    // Sidebar values and filters, app.py:26-45
    var spec := FilterSpec(ageMin, ageMax, SelectionChoice(channelSelection),
                           SelectionChoice(genderSelection), incomeMin, incomeMax);
    filtered := ApplyFilters(df, spec);

    // KPIs and chart series, app.py:50-86
    kpis := KpisOf(filtered);
    charts := ChartsOf(filtered);
  }

  /** Five records aged 20, 25, 40, 70 and 30, filtered to ages 18-65 with both choices at
      "All" and an income range covering all of them: the average ConversionRate is the mean
      over the four records other than the 70-year-old. */
  lemma FiveRecordAverage(rs: seq<Record>, incomeMin: int, incomeMax: int)
    requires |rs| == 5
    requires rs[0].age == 20 && rs[1].age == 25 && rs[2].age == 40 && rs[3].age == 70 && rs[4].age == 30
    requires forall i :: 0 <= i < 5 ==> incomeMin <= rs[i].income <= incomeMax
    ensures var filtered := Where(rs, Conditions(FilterSpec(18, 65, Any, Any, incomeMin, incomeMax)));
            Mean(filtered, ConversionRate) == Some((rs[0].conversionRate + rs[1].conversionRate +
                                                   rs[2].conversionRate + rs[4].conversionRate) / 4.0)
  {
    FiveRecordScenario(rs, incomeMin, incomeMax);
    var kept := [rs[0], rs[1], rs[2], rs[4]];
    assert kept[1..][1..][1..][1..] == [];
    assert Total(kept[1..][1..][1..], ConversionRate) == rs[4].conversionRate;
    assert Total(kept[1..][1..], ConversionRate) == rs[2].conversionRate + rs[4].conversionRate;
    assert Total(kept, ConversionRate) == rs[0].conversionRate + rs[1].conversionRate +
                                          rs[2].conversionRate + rs[4].conversionRate;
  }
}
