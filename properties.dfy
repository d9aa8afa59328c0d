/**
 * What the evaluator promises about its reports: which message appears exactly
 * when, that none appears twice, when the verdict is "Compliant", and that the
 * verdict does not depend on the order in which the detected banned products
 * are visited.
 */
module ComplianceProperties {
  import opened PyText
  import opened Tables
  import opened Reasons
  import opened Compliance

  /** The reason `r` is called for by the checks from the HS code to the
      description, stated on the raw payload: a text field is missing when it
      is empty or all whitespace. */
  ghost predicate FieldFails(data: Payload, limits: Limits, hsFound: bool, r: Reason)
  {
    match r
    case Missing(HsCode) => data.hscode == ""
    case Missing(ItemName) => AllSpace(data.itemName)
    case Missing(Courier) => AllSpace(data.courier)
    case Missing(OriginCountry) => AllSpace(data.originCountry)
    case Missing(DeclaredValue) => NumberOrZero(data.declaredValue) == 0.0
    case Missing(Description) => AllSpace(data.inputText)
    case HsCodeNotFound(code) => data.hscode != "" && !hsFound && code == data.hscode
    case OutOfRange(dim) => !DimensionWithinLimits(data, limits, dim)
    case _ => false
  }

  /** The reason `r` is called for by the checks after the field checks. */
  ghost predicate LaterFails(data: Payload, tables: Requirements, outcome: ClassifierOutcome, r: Reason)
  {
    var value := NumberOrZero(data.declaredValue);
    match r
    case Prohibited(item) => item in BannedIn(Strip(data.inputText))
    case RestrictedOrigin(country) => country == Strip(data.originCountry) && country in BannedCountries
    case ExceedsTier(tier) => value > tier.Threshold()
    case AdditionalDocuments => NeedsPaperwork(tables, DetectCategory(Strip(data.inputText)), value)
    case VectorizationFailed => outcome == VectorizationError
    case DescriptionNonCompliant => outcome == Predicted(0)
    case _ => false
  }

  ghost predicate Raised(data: Payload, limits: Limits, tables: Requirements, hsFound: bool, outcome: ClassifierOutcome, r: Reason)
  {
    FieldFails(data, limits, hsFound, r) || LaterFails(data, tables, outcome, r)
  }

  lemma AppendIfMember<T>(xs: seq<T>, cond: bool, ys: seq<T>, x: T)
    ensures x in AppendIf(xs, cond, ys) <==> x in xs || (cond && x in ys)
  {
  }

  lemma HsCodeChecksMember(hscode: string, hsFound: bool, rs: seq<Reason>, r: Reason)
    ensures r in HsCodeChecks(hscode, hsFound, rs) <==>
      r in rs || (r == Missing(HsCode) && hscode == "") || (r == HsCodeNotFound(hscode) && hscode != "" && !hsFound)
  {
  }

  lemma ShipperChecksMember(data: Payload, rs: seq<Reason>, r: Reason)
    ensures r in ShipperChecks(data, rs) <==>
      r in rs || (r == Missing(ItemName) && AllSpace(data.itemName)) || (r == Missing(Courier) && AllSpace(data.courier))
  {
    StripBlank(data.itemName);
    StripBlank(data.courier);
  }

  lemma DimensionChecksMember(data: Payload, limits: Limits, rs: seq<Reason>, r: Reason)
    ensures r in DimensionChecks(data, limits, rs) <==>
      r in rs || (r.OutOfRange? && !DimensionWithinLimits(data, limits, r.dim))
  {
  }

  lemma DeclarationChecksMember(data: Payload, rs: seq<Reason>, r: Reason)
    ensures r in DeclarationChecks(data, rs) <==>
      || r in rs
      || (r == Missing(OriginCountry) && AllSpace(data.originCountry))
      || (r == Missing(DeclaredValue) && NumberOrZero(data.declaredValue) == 0.0)
      || (r == Missing(Description) && AllSpace(data.inputText))
  {
    StripBlank(data.originCountry);
    StripBlank(data.inputText);
  }

  /** The field checks call for a reason exactly when it fails. */
  lemma FieldReasonsExactly(data: Payload, limits: Limits, hsFound: bool, r: Reason)
    ensures r in FieldReasons(data, limits, hsFound) <==> FieldFails(data, limits, hsFound, r)
  {
    var rs0 := HsCodeChecks(data.hscode, hsFound, []);
    var rs1 := ShipperChecks(data, rs0);
    var rs2 := DimensionChecks(data, limits, rs1);
    assert FieldReasons(data, limits, hsFound) == DeclarationChecks(data, rs2);
    HsCodeChecksMember(data.hscode, hsFound, [], r);
    ShipperChecksMember(data, rs0, r);
    DimensionChecksMember(data, limits, rs1, r);
    DeclarationChecksMember(data, rs2, r);
    if r.Missing? {
      assert FieldFails(data, limits, hsFound, r) <==>
        || (r == Missing(HsCode) && data.hscode == "")
        || (r == Missing(ItemName) && AllSpace(data.itemName))
        || (r == Missing(Courier) && AllSpace(data.courier))
        || (r == Missing(OriginCountry) && AllSpace(data.originCountry))
        || (r == Missing(DeclaredValue) && NumberOrZero(data.declaredValue) == 0.0)
        || (r == Missing(Description) && AllSpace(data.inputText));
    }
  }

  lemma ProhibitedMember(order: seq<string>, r: Reason)
    ensures r in ProhibitedReasons(order) <==> r.Prohibited? && r.item in order
  {
    if r.Prohibited? && r.item in order {
      var i :| 0 <= i < |order| && order[i] == r.item;
      assert ProhibitedReasons(order)[i] == r;
    }
  }

  lemma EscalationMember(value: real, rs: seq<Reason>, r: Reason)
    ensures r in EscalationReasons(value, rs) <==> r in rs || (r.ExceedsTier? && value > r.tier.Threshold())
  {
  }

  lemma ClassifierMember(outcome: ClassifierOutcome, rs: seq<Reason>, r: Reason)
    ensures r in ClassifierReasons(outcome, rs) <==>
      r in rs || (r == VectorizationFailed && outcome == VectorizationError) || (r == DescriptionNonCompliant && outcome == Predicted(0))
  {
  }

  lemma LaterChecksMember(data: Payload, tables: Requirements, outcome: ClassifierOutcome, rs: seq<Reason>, r: Reason)
    ensures r in LaterChecks(data, tables, outcome, rs) <==> r in rs || (LaterFails(data, tables, outcome, r) && !r.Prohibited?)
  {
    var origin := Strip(data.originCountry);
    var value := NumberOrZero(data.declaredValue);
    var category := DetectCategory(Strip(data.inputText));
    var rs1 := AppendIf(rs, origin in BannedCountries, [RestrictedOrigin(origin)]);
    var rs2 := EscalationReasons(value, rs1);
    var rs3 := AppendIf(rs2, NeedsPaperwork(tables, category, value), [AdditionalDocuments]);
    EscalationMember(value, rs1, r);
    ClassifierMember(outcome, rs3, r);
  }

  /** Over all the checks, a reason is called for exactly when it fails. */
  lemma AllReasonsExactly(data: Payload, limits: Limits, tables: Requirements, hsFound: bool, outcome: ClassifierOutcome,
                          order: seq<string>, r: Reason)
    requires Enumerates(order, BannedIn(Strip(data.inputText)))
    ensures r in AllReasons(data, limits, tables, hsFound, outcome, order) <==> Raised(data, limits, tables, hsFound, outcome, r)
  {
    FieldReasonsExactly(data, limits, hsFound, r);
    ProhibitedMember(order, r);
    LaterChecksMember(data, tables, outcome, FieldReasons(data, limits, hsFound) + ProhibitedReasons(order), r);
  }

  /** A reason's message is in a rendered list exactly when the reason is in
      the list: no two reasons share a message. */
  lemma MessagesMember(rs: seq<Reason>, r: Reason)
    ensures r.Message() in Messages(rs) <==> r in rs
  {
    var lines := Messages(rs);
    if r.Message() in lines {
      var i :| 0 <= i < |lines| && lines[i] == r.Message();
      MessageInjective(rs[i], r);
    }
    if r in rs {
      var i :| 0 <= i < |rs| && rs[i] == r;
      assert lines[i] == r.Message();
    }
  }

  /** A report carries a reason's message exactly when that check fails. */
  lemma ReportedExactlyWhenRaised(data: Payload, limits: Limits, tables: Requirements, hsFound: bool, outcome: ClassifierOutcome,
                                  order: seq<string>, r: Reason)
    requires Enumerates(order, BannedIn(Strip(data.inputText)))
    ensures r.Message() in Evaluate(data, limits, tables, hsFound, outcome, order).reasons
      <==> Raised(data, limits, tables, hsFound, outcome, r)
  {
    AllReasonsExactly(data, limits, tables, hsFound, outcome, order, r);
    MessagesMember(AllReasons(data, limits, tables, hsFound, outcome, order), r);
  }

  lemma AppendIfDistinct<T>(xs: seq<T>, cond: bool, y: T)
    requires Distinct(xs) && (cond ==> y !in xs)
    ensures Distinct(AppendIf(xs, cond, [y]))
  {
  }

  lemma ConcatDistinct<T>(xs: seq<T>, ys: seq<T>)
    requires Distinct(xs) && Distinct(ys) && forall y :: y in ys ==> y !in xs
    ensures Distinct(xs + ys)
  {
    var zs := xs + ys;
    forall i, j | 0 <= i < j < |zs| ensures zs[i] != zs[j] {
      if j < |xs| {
        assert zs[i] == xs[i] && zs[j] == xs[j];
      } else if i >= |xs| {
        assert zs[i] == ys[i - |xs|] && zs[j] == ys[j - |xs|];
      } else {
        assert zs[i] == xs[i] && zs[j] == ys[j - |xs|];
        assert ys[j - |xs|] in ys && xs[i] in xs;
      }
    }
  }

  lemma {:induction false} ProhibitedDistinct(order: seq<string>)
    requires Distinct(order)
    ensures Distinct(ProhibitedReasons(order))
  {
    var rs := ProhibitedReasons(order);
    forall i, j | 0 <= i < j < |rs| ensures rs[i] != rs[j] {
      assert rs[i].item == order[i] && rs[j].item == order[j];
    }
  }

  lemma ShipperChecksDistinct(data: Payload, rs: seq<Reason>)
    requires Distinct(rs) && Missing(ItemName) !in rs && Missing(Courier) !in rs
    ensures Distinct(ShipperChecks(data, rs))
  {
    var a := AppendIf(rs, Strip(data.itemName) == "", [Missing(ItemName)]);
    AppendIfDistinct(rs, Strip(data.itemName) == "", Missing(ItemName));
    AppendIfDistinct(a, Strip(data.courier) == "", Missing(Courier));
  }

  lemma DimensionChecksDistinct(data: Payload, limits: Limits, rs: seq<Reason>)
    requires Distinct(rs) && forall dim: Dimension :: OutOfRange(dim) !in rs
    ensures Distinct(DimensionChecks(data, limits, rs))
  {
    var b := AppendIf(rs, !DimensionWithinLimits(data, limits, Weight), [OutOfRange(Weight)]);
    var c := AppendIf(b, !DimensionWithinLimits(data, limits, Length), [OutOfRange(Length)]);
    var d := AppendIf(c, !DimensionWithinLimits(data, limits, Breadth), [OutOfRange(Breadth)]);
    AppendIfDistinct(rs, !DimensionWithinLimits(data, limits, Weight), OutOfRange(Weight));
    AppendIfDistinct(b, !DimensionWithinLimits(data, limits, Length), OutOfRange(Length));
    AppendIfDistinct(c, !DimensionWithinLimits(data, limits, Breadth), OutOfRange(Breadth));
    AppendIfDistinct(d, !DimensionWithinLimits(data, limits, Height), OutOfRange(Height));
  }

  lemma DeclarationChecksDistinct(data: Payload, rs: seq<Reason>)
    requires Distinct(rs)
    requires Missing(OriginCountry) !in rs && Missing(DeclaredValue) !in rs && Missing(Description) !in rs
    ensures Distinct(DeclarationChecks(data, rs))
  {
    var e := AppendIf(rs, Strip(data.originCountry) == "", [Missing(OriginCountry)]);
    var g := AppendIf(e, NumberOrZero(data.declaredValue) == 0.0, [Missing(DeclaredValue)]);
    AppendIfDistinct(rs, Strip(data.originCountry) == "", Missing(OriginCountry));
    AppendIfDistinct(e, NumberOrZero(data.declaredValue) == 0.0, Missing(DeclaredValue));
    AppendIfDistinct(g, Strip(data.inputText) == "", Missing(Description));
  }

  /** The field checks never call for the same reason twice. */
  lemma FieldReasonsDistinct(data: Payload, limits: Limits, hsFound: bool)
    ensures Distinct(FieldReasons(data, limits, hsFound))
  {
    var rs0 := HsCodeChecks(data.hscode, hsFound, []);
    var rs1 := ShipperChecks(data, rs0);
    var rs2 := DimensionChecks(data, limits, rs1);
    HsCodeChecksMember(data.hscode, hsFound, [], Missing(ItemName));
    HsCodeChecksMember(data.hscode, hsFound, [], Missing(Courier));
    ShipperChecksDistinct(data, rs0);
    forall dim: Dimension ensures OutOfRange(dim) !in rs1 {
      ShipperChecksMember(data, rs0, OutOfRange(dim));
      HsCodeChecksMember(data.hscode, hsFound, [], OutOfRange(dim));
    }
    DimensionChecksDistinct(data, limits, rs1);
    forall f | f in {OriginCountry, DeclaredValue, Description} ensures Missing(f) !in rs2 {
      DimensionChecksMember(data, limits, rs1, Missing(f));
      ShipperChecksMember(data, rs0, Missing(f));
      HsCodeChecksMember(data.hscode, hsFound, [], Missing(f));
    }
    DeclarationChecksDistinct(data, rs2);
  }

  lemma EscalationDistinct(value: real, rs: seq<Reason>)
    requires Distinct(rs) && forall tier: Tier :: ExceedsTier(tier) !in rs
    ensures Distinct(EscalationReasons(value, rs))
  {
    var a := AppendIf(rs, value > OneLakh.Threshold(), [ExceedsTier(OneLakh)]);
    var b := AppendIf(a, value > TwentyFiveLakh.Threshold(), [ExceedsTier(TwentyFiveLakh)]);
    AppendIfDistinct(rs, value > OneLakh.Threshold(), ExceedsTier(OneLakh));
    AppendIfDistinct(a, value > TwentyFiveLakh.Threshold(), ExceedsTier(TwentyFiveLakh));
    AppendIfDistinct(b, value > OneCrore.Threshold(), ExceedsTier(OneCrore));
  }

  lemma ClassifierDistinct(outcome: ClassifierOutcome, rs: seq<Reason>)
    requires Distinct(rs) && VectorizationFailed !in rs && DescriptionNonCompliant !in rs
    ensures Distinct(ClassifierReasons(outcome, rs))
  {
    match outcome
    case VectorizationError => AppendIfDistinct(rs, true, VectorizationFailed);
    case Predicted(prediction) => AppendIfDistinct(rs, prediction == 0, DescriptionNonCompliant);
  }

  /** A reason that only the field checks or the banned-product check append. */
  predicate EarlyReason(r: Reason)
  {
    r.Missing? || r.HsCodeNotFound? || r.OutOfRange? || r.Prohibited?
  }

  lemma LaterChecksDistinct(data: Payload, tables: Requirements, outcome: ClassifierOutcome, rs: seq<Reason>)
    requires Distinct(rs) && forall r :: r in rs ==> EarlyReason(r)
    ensures Distinct(LaterChecks(data, tables, outcome, rs))
  {
    var origin := Strip(data.originCountry);
    var value := NumberOrZero(data.declaredValue);
    var category := DetectCategory(Strip(data.inputText));
    var rs1 := AppendIf(rs, origin in BannedCountries, [RestrictedOrigin(origin)]);
    var rs2 := EscalationReasons(value, rs1);
    var rs3 := AppendIf(rs2, NeedsPaperwork(tables, category, value), [AdditionalDocuments]);
    AppendIfDistinct(rs, origin in BannedCountries, RestrictedOrigin(origin));
    EscalationDistinct(value, rs1);
    EscalationMember(value, rs1, AdditionalDocuments);
    AppendIfDistinct(rs2, NeedsPaperwork(tables, category, value), AdditionalDocuments);
    EscalationMember(value, rs1, VectorizationFailed);
    EscalationMember(value, rs1, DescriptionNonCompliant);
    ClassifierDistinct(outcome, rs3);
  }

  /** No reason is called for twice, whatever the order in which the detected
      banned products are visited. */
  lemma AllReasonsDistinct(data: Payload, limits: Limits, tables: Requirements, hsFound: bool, outcome: ClassifierOutcome,
                           order: seq<string>)
    requires Enumerates(order, BannedIn(Strip(data.inputText)))
    ensures Distinct(AllReasons(data, limits, tables, hsFound, outcome, order))
  {
    var fields := FieldReasons(data, limits, hsFound);
    var rs0 := fields + ProhibitedReasons(order);
    FieldReasonsDistinct(data, limits, hsFound);
    ProhibitedDistinct(order);
    forall r | r in ProhibitedReasons(order) ensures r !in fields {
      FieldReasonsExactly(data, limits, hsFound, r);
      ProhibitedMember(order, r);
    }
    ConcatDistinct(fields, ProhibitedReasons(order));
    forall r | r in rs0 ensures EarlyReason(r) {
      FieldReasonsExactly(data, limits, hsFound, r);
      ProhibitedMember(order, r);
    }
    LaterChecksDistinct(data, tables, outcome, rs0);
  }

  /** In a list without repetitions every element occurs once. */
  lemma {:induction false} DistinctCount<T>(xs: seq<T>, x: T)
    requires Distinct(xs)
    ensures multiset(xs)[x] == if x in xs then 1 else 0
    decreases |xs|
  {
    if xs != [] {
      assert xs == [xs[0]] + xs[1..];
      assert Distinct(xs[1..]) by {
        forall i, j | 0 <= i < j < |xs| - 1 ensures xs[1..][i] != xs[1..][j] {
          assert xs[1..][i] == xs[i + 1] && xs[1..][j] == xs[j + 1];
        }
      }
      assert xs[0] !in xs[1..];
      DistinctCount(xs[1..], x);
    }
  }

  lemma MessagesDistinct(rs: seq<Reason>)
    requires Distinct(rs)
    ensures Distinct(Messages(rs))
  {
    var lines := Messages(rs);
    forall i, j | 0 <= i < j < |lines| ensures lines[i] != lines[j] {
      MessageInjective(rs[i], rs[j]);
    }
  }

  /** A report carries each reason's message once if that check fails and not
      at all otherwise. */
  lemma ReportedOnceWhenRaised(data: Payload, limits: Limits, tables: Requirements, hsFound: bool, outcome: ClassifierOutcome,
                               order: seq<string>, r: Reason)
    requires Enumerates(order, BannedIn(Strip(data.inputText)))
    ensures multiset(Evaluate(data, limits, tables, hsFound, outcome, order).reasons)[r.Message()]
      == if Raised(data, limits, tables, hsFound, outcome, r) then 1 else 0
  {
    AllReasonsDistinct(data, limits, tables, hsFound, outcome, order);
    MessagesDistinct(AllReasons(data, limits, tables, hsFound, outcome, order));
    DistinctCount(Evaluate(data, limits, tables, hsFound, outcome, order).reasons, r.Message());
    ReportedExactlyWhenRaised(data, limits, tables, hsFound, outcome, order, r);
  }

  /** Each line of a report is the message of a reason whose check fails. */
  lemma ReportLinesAreRaised(data: Payload, limits: Limits, tables: Requirements, hsFound: bool, outcome: ClassifierOutcome,
                             order: seq<string>, line: string)
    requires Enumerates(order, BannedIn(Strip(data.inputText)))
    requires line in Evaluate(data, limits, tables, hsFound, outcome, order).reasons
    ensures exists r: Reason :: r.Message() == line && Raised(data, limits, tables, hsFound, outcome, r)
  {
    var rs := AllReasons(data, limits, tables, hsFound, outcome, order);
    var lines := Messages(rs);
    var i :| 0 <= i < |lines| && lines[i] == line;
    AllReasonsExactly(data, limits, tables, hsFound, outcome, order, rs[i]);
  }

  /** The verdict does not depend on the order in which the detected banned
      products are visited: two orders give the same report up to the order of
      its reasons, and the very same report when at most one product is found. */
  lemma OrderIndependent(data: Payload, limits: Limits, tables: Requirements, hsFound: bool, outcome: ClassifierOutcome,
                         order1: seq<string>, order2: seq<string>)
    requires Enumerates(order1, BannedIn(Strip(data.inputText)))
    requires Enumerates(order2, BannedIn(Strip(data.inputText)))
    ensures var e1 := Evaluate(data, limits, tables, hsFound, outcome, order1);
            var e2 := Evaluate(data, limits, tables, hsFound, outcome, order2);
            && multiset(e1.reasons) == multiset(e2.reasons)
            && e1.(reasons := e2.reasons) == e2
    ensures |BannedIn(Strip(data.inputText))| <= 1 ==>
      Evaluate(data, limits, tables, hsFound, outcome, order1) == Evaluate(data, limits, tables, hsFound, outcome, order2)
  {
    var e1 := Evaluate(data, limits, tables, hsFound, outcome, order1);
    var e2 := Evaluate(data, limits, tables, hsFound, outcome, order2);
    forall line ensures multiset(e1.reasons)[line] == multiset(e2.reasons)[line] {
      AllReasonsDistinct(data, limits, tables, hsFound, outcome, order1);
      AllReasonsDistinct(data, limits, tables, hsFound, outcome, order2);
      MessagesDistinct(AllReasons(data, limits, tables, hsFound, outcome, order1));
      MessagesDistinct(AllReasons(data, limits, tables, hsFound, outcome, order2));
      DistinctCount(e1.reasons, line);
      DistinctCount(e2.reasons, line);
      if line in e1.reasons {
        ReportLinesAreRaised(data, limits, tables, hsFound, outcome, order1, line);
        var r: Reason :| r.Message() == line && Raised(data, limits, tables, hsFound, outcome, r);
        ReportedExactlyWhenRaised(data, limits, tables, hsFound, outcome, order2, r);
      }
      if line in e2.reasons {
        ReportLinesAreRaised(data, limits, tables, hsFound, outcome, order2, line);
        var r: Reason :| r.Message() == line && Raised(data, limits, tables, hsFound, outcome, r);
        ReportedExactlyWhenRaised(data, limits, tables, hsFound, outcome, order1, r);
      }
    }
    assert multiset(e1.reasons) == multiset(e2.reasons);
    assert |e1.reasons| == |multiset(e1.reasons)| && |e2.reasons| == |multiset(e2.reasons)|;
    var detected := BannedIn(Strip(data.inputText));
    if |detected| <= 1 {
      SmallSetEnumeratedOnce(order1, order2, detected);
    }
  }

  /** A set of at most one element has only one enumeration. */
  lemma SmallSetEnumeratedOnce(order1: seq<string>, order2: seq<string>, s: set<string>)
    requires Enumerates(order1, s) && Enumerates(order2, s) && |s| <= 1
    ensures order1 == order2
  {
    EnumerationLength(order1, s);
    EnumerationLength(order2, s);
    if |s| == 1 {
      assert order1[0] in s && order2[0] in s;
      var x :| x in s;
      assert s == {x} by {
        forall y | y in s ensures y == x {
          if y != x {
            SubsetCardinality({x, y}, s);
          }
        }
      }
    }
  }

  lemma SubsetCardinality(a: set<string>, b: set<string>)
    requires a <= b
    ensures |a| <= |b|
  {
    assert b == a + (b - a);
  }
}
