/**
 * The two model definitions the repository ships, and the outcomes its tests expect of them.
 */
module Fixtures {
  import opened Wrappers
  import opened JsString
  import opened IsoDate
  import opened MindsdbModels
  import Service

  /** The condition templates of both definitions, as text before the key and the key. */
  const CustomerCondition: string := "t.customerId = "
  const CustomerKey: string := "$CUSTOMER_ID$"
  const DateCondition: string := "t.date > "
  const DateKey: string := "$DATE$"

  const BalanceAuto: ModelDef := ModelDef(
    "balance_auto", "sum", Some("v1.0.0"), Some(Day), None, None, None,
    TrainingOptions("select * from enriched_balance", None, Some("customerId"), Some("date"), Some(90), Some(60), None),
    PredictDefaults(Many([CustomerCondition + CustomerKey, DateCondition + DateKey]), "views.enriched_balance", None),
    None,
    Some(FinetuneOptions("select * from enriched_balance where customerId = $CUSTOMER_ID$ and date > $DATE$", Some(""), None)))

  const BalanceGluon: ModelDef := ModelDef(
    "balance_gluon", "sum", Some("v1.0.0"), Some(Day), None, None,
    Some(ViewDef("select * from production.banking.enriched_balance", Some("balance_gluon_enriched_balance"))),
    TrainingOptions("select * from balance_gluon_enriched_balance", None, Some("customerId"), Some("date"), Some(90), Some(60), None),
    PredictDefaults(Many([CustomerCondition + CustomerKey, DateCondition + DateKey]), "views.enriched_balance", None),
    None,
    Some(FinetuneOptions("select * from balance_gluon_enriched_balance", Some(""), None)))

  const Models: map<string, ModelDef> := map["balance_auto" := BalanceAuto, "balance_gluon" := BalanceGluon]

  /** The parameters of the predict test, with `t` the time value of the date. */
  function TestParams(t: TimeValue): Params {
    [(CustomerKey, PNumber(1123213)), (DateKey, PDate(t))]
  }

  lemma NewYearCivil()
    ensures CivilFromDays(18993) == CivilDate(2022, 1, 1)
  {
    assert 738461 / 146097 == 5;
    assert YearOfEra(7976) == 21;
    assert YearStart(21) == 7670;
    assert (5 * 306 + 2) / 153 == 10;
    assert (153 * 10 + 2) / 5 == 306;
  }

  lemma NewYearParts()
    ensures PartsOf(1_640_995_200_000) == DateTimeParts(CivilDate(2022, 1, 1), 0, 0, 0, 0)
  {
    assert 1_640_995_200_000 / MsPerDay == 18993;
    assert 1_640_995_200_000 % MsPerDay == 0;
    NewYearCivil();
  }

  lemma NewYearDigits()
    ensures YearText(2022) == "2022" && Pad(1, 2) == "01" && Pad(0, 2) == "00" && Pad(0, 3) == "000"
  {
    assert NatText(2) == "2";
    assert NatText(20) == NatText(2) + "0";
    assert NatText(202) == NatText(20) + "2";
    assert NatText(2022) == NatText(202) + "2";
    assert NatText(1) == "1" && NatText(0) == "0";
  }

  lemma NewYearDateText()
    ensures DateText(DateTimeParts(CivilDate(2022, 1, 1), 0, 0, 0, 0)) == "2022-01-01"
  {
    NewYearDigits();
  }

  lemma NewYearTimeText()
    ensures TimeText(DateTimeParts(CivilDate(2022, 1, 1), 0, 0, 0, 0)) == "00:00:00.000"
  {
    NewYearDigits();
  }

  /** `new Date('2022-01-01').toISOString()` */
  lemma NewYearIsoString()
    ensures ToIsoString(1_640_995_200_000) == "2022-01-01T00:00:00.000Z"
  {
    NewYearParts();
    NewYearDateText();
    NewYearTimeText();
  }

  /** A key starting with `$` occurs nowhere before the first `$` of the text. */
  lemma DollarKeyFirstAt(s: string, key: string, i: int)
    requires OccursAt(s, key, i) && |key| > 0 && key[0] == '$'
    requires '$' !in s[..i]
    ensures FirstOccurrence(s, key, i)
  {
    forall j | 0 <= j < i ensures !OccursAt(s, key, j) {
      assert s[j] == s[..i][j];
    }
  }

  /** A key starting with `$` occurs nowhere in a text without `$`. */
  lemma DollarKeyAbsent(s: string, key: string)
    requires |key| > 0 && key[0] == '$' && '$' !in s
    ensures forall j :: !OccursAt(s, key, j)
  {
    forall j | 0 <= j < |s| ensures !OccursAt(s, key, j) {
      assert s[j] in s;
    }
  }

  lemma CustomerIdText()
    ensures RenderValue(PNumber(1123213)) == "1123213"
  {
    RenderNumber(1123213);
    CustomerIdDigits();
  }

  lemma CustomerIdDigits()
    ensures NatText(1123213) == "1123213"
  {
    assert NatText(1) == "1";
    assert NatText(11) == NatText(1) + "1";
    assert NatText(112) == NatText(11) + "2";
    assert NatText(1123) == NatText(112) + "3";
    assert NatText(11232) == NatText(1123) + "2";
    assert NatText(112321) == NatText(11232) + "1";
    assert NatText(1123213) == NatText(112321) + "3";
  }

  /** A `$`-key right after a `$`-free prefix is replaced there by a `$`-free value. */
  lemma DollarKeyReplaced(prefix: string, key: string, value: string)
    requires |key| > 0 && key[0] == '$' && '$' !in prefix && '$' !in value
    ensures Replace(prefix + key, key, value) == prefix + value
  {
    var s := prefix + key;
    assert s[..|prefix|] == prefix && s[|prefix| + |key|..] == [];
    assert s[|prefix|..|prefix| + |key|] == key;
    DollarKeyFirstAt(s, key, |prefix|);
    ReplaceFirstOccurrence(s, key, value, |prefix|);
  }

  /** A `$`-key longer than everything after the first `$` occurs nowhere. */
  lemma DollarKeyTooLong(prefix: string, tail: string, key: string)
    requires |key| > |tail| && key[0] == '$' && '$' !in prefix
    ensures forall j :: !OccursAt(prefix + tail, key, j)
  {
    var s := prefix + tail;
    forall j | 0 <= j < |prefix| ensures !OccursAt(s, key, j) {
      assert s[j] == prefix[j];
    }
  }

  /** With two `$`-keys, the first longer than the second, a template holding only the first
      key gets the first value and keeps it. */
  lemma FirstOfTwoKeys(prefix: string, k1: string, v1: ParamValue, k2: string, v2: ParamValue)
    requires |k1| > 0 && k1[0] == '$' && |k2| > 0 && k2[0] == '$'
    requires '$' !in prefix && '$' !in RenderValue(v1)
    ensures Substitute(prefix + k1, [(k1, v1), (k2, v2)]) == prefix + RenderValue(v1)
  {
    DollarKeyKept(prefix, k1, RenderValue(v1), k2, RenderValue(v2));
    SubstitutePair(prefix + k1, k1, v1, k2, v2);
  }

  /** A `$`-key replaced by a `$`-free value leaves no `$` for a later key to match. */
  lemma DollarKeyKept(prefix: string, k1: string, r1: string, k2: string, r2: string)
    requires |k1| > 0 && k1[0] == '$' && |k2| > 0 && k2[0] == '$'
    requires '$' !in prefix && '$' !in r1
    ensures Replace(Replace(prefix + k1, k1, r1), k2, r2) == prefix + r1
  {
    DollarKeyReplaced(prefix, k1, r1);
    assert '$' !in prefix + r1;
    DollarKeyAbsent(prefix + r1, k2);
  }

  /** With two `$`-keys, the first longer than the second, a template holding only the second
      key passes the first untouched and gets the second value. */
  lemma SecondOfTwoKeys(prefix: string, k1: string, v1: ParamValue, k2: string, v2: ParamValue)
    requires |k1| > |k2| > 0 && k1[0] == '$' && k2[0] == '$'
    requires '$' !in prefix && '$' !in RenderValue(v2)
    ensures Substitute(prefix + k2, [(k1, v1), (k2, v2)]) == prefix + RenderValue(v2)
  {
    DollarKeyTooLong(prefix, k2, k1);
    DollarKeyReplaced(prefix, k2, RenderValue(v2));
    SubstitutePair(prefix + k2, k1, v1, k2, v2);
  }

  lemma FirstConditionSubstituted(t: TimeValue)
    ensures Substitute(CustomerCondition + CustomerKey, TestParams(t)) == CustomerCondition + "1123213"
  {
    CustomerIdText();
    ConditionsHoldNoDollar();
    FirstOfTwoKeys(CustomerCondition, CustomerKey, PNumber(1123213), DateKey, PDate(t));
  }

  lemma ConditionsHoldNoDollar()
    ensures '$' !in CustomerCondition && '$' !in DateCondition
  {
  }

  lemma SecondConditionSubstituted(t: TimeValue)
    ensures Substitute(DateCondition + DateKey, TestParams(t)) == DateCondition + "'" + ToIsoString(t) + "'"
  {
    RenderDate(t);
    ConditionsHoldNoDollar();
    SecondOfTwoKeys(DateCondition, CustomerKey, PNumber(1123213), DateKey, PDate(t));
    ConcatAssociates(DateCondition, "'", ToIsoString(t), "'");
  }

  lemma SubstituteTwo(a: string, b: string, params: Params)
    ensures SubstituteWhere(Many([a, b]), params) == Many([Substitute(a, params), Substitute(b, params)])
  {
    assert SubstituteWhere(Many([a, b]), params).texts == [Substitute(a, params), Substitute(b, params)];
  }

  /** The predict test, with the parameter record passed as the request: both conditions of
      `balance_auto` are filled in, the number bare and the date `t` quoted in ISO form (for
      `new Date('2022-01-01')` that form is given by `NewYearIsoString`). */
  lemma PredictTestIntended(t: TimeValue)
    ensures GetPredictOptions(BalanceAuto, PredictQuery(None, None, None, Some(TestParams(t)), None))
      == Ok(PredictOptions("views.enriched_balance",
                           Many([CustomerCondition + "1123213", DateCondition + "'" + ToIsoString(t) + "'"]), None))
  {
    FirstConditionSubstituted(t);
    SecondConditionSubstituted(t);
    SubstituteTwo(CustomerCondition + CustomerKey, DateCondition + DateKey, TestParams(t));
  }

  /** The predict test as written passes the string 'ss' as the request, on which every property
      is undefined: the template comes back unsubstituted. */
  lemma PredictTestAsWritten()
    ensures GetPredictOptions(BalanceAuto, PredictQuery(None, None, None, None, None))
      == Ok(PredictOptions("views.enriched_balance", Many([CustomerCondition + CustomerKey, DateCondition + DateKey]), None))
  {
  }

  /** Creating `balance_gluon` in an empty project: the model is looked up, the views are listed,
      its view is created, and the model is trained with the project as its integration. */
  lemma CreateBalanceGluon()
    ensures Service.CreateSpec(Service.World({}, map[], []), Models, "mindsdb", "balance_gluon")
      == (Service.World({Service.ModelRef("balance_gluon", "mindsdb")},
                        map["mindsdb" := ["balance_gluon_enriched_balance"]],
                        [Service.GetModel("balance_gluon", "mindsdb", None),
                         Service.GetAllViews("mindsdb"),
                         Service.CreateView("balance_gluon_enriched_balance", "mindsdb",
                                            "select * from production.banking.enriched_balance"),
                         Service.TrainModel("balance_gluon", "sum", "mindsdb",
                                            BalanceGluon.trainingOptions.(integration := Some("mindsdb")))]),
          Ok(Service.ModelRef("balance_gluon", "mindsdb")))
  {
    var w1 := Service.World({}, map[], [Service.GetModel("balance_gluon", "mindsdb", None)]);
    var w2 := Service.ViewStep(w1, BalanceGluon, "mindsdb");
    assert Service.ViewsOf(w1, "mindsdb") == [];
    assert BalanceGluon.view == Some(ViewDef("select * from production.banking.enriched_balance", Some("balance_gluon_enriched_balance")));
    assert !Service.ViewExists([], Some("balance_gluon_enriched_balance"));
    assert w2 == Service.World({}, map["mindsdb" := [] + ["balance_gluon_enriched_balance"]], w2.log);
    assert [] + ["balance_gluon_enriched_balance"] == ["balance_gluon_enriched_balance"];
    assert w2.views == map["mindsdb" := ["balance_gluon_enriched_balance"]];
    assert w2.log == w1.log + [Service.GetAllViews("mindsdb"),
                               Service.CreateView("balance_gluon_enriched_balance", "mindsdb",
                                                  "select * from production.banking.enriched_balance")];
    assert Service.TrainingPayload("mindsdb", BalanceGluon.trainingOptions)
      == BalanceGluon.trainingOptions.(integration := Some("mindsdb"));
    assert Models["balance_gluon"] == BalanceGluon;
    assert Service.ModelRef("balance_gluon", "mindsdb") !in Service.World({}, map[], []).models;
    assert w2.models + {Service.ModelRef("balance_gluon", "mindsdb")} == {Service.ModelRef("balance_gluon", "mindsdb")};
    var train := Service.TrainModel("balance_gluon", "sum", "mindsdb", BalanceGluon.trainingOptions.(integration := Some("mindsdb")));
    assert Service.Logged(Service.World({}, map[], []), Service.GetModel("balance_gluon", "mindsdb", None)) == w1;
    assert Service.CreateSpec(Service.World({}, map[], []), Models, "mindsdb", "balance_gluon").0
      == Service.Logged(w2, train).(models := {Service.ModelRef("balance_gluon", "mindsdb")});
    assert w2.log + [train] == [Service.GetModel("balance_gluon", "mindsdb", None),
                                Service.GetAllViews("mindsdb"),
                                Service.CreateView("balance_gluon_enriched_balance", "mindsdb",
                                                   "select * from production.banking.enriched_balance"),
                                train];
  }
}
