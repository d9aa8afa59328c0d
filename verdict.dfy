/**
 * When the evaluator answers "Compliant": exactly when every check passes, in
 * which case no paperwork is listed either; and, for the service's own tables,
 * only for a shipment of the catch-all category worth at most 1 Lakh INR.
 */
module Verdict {
  import opened PyText
  import opened Tables
  import opened Reasons
  import opened Compliance
  import opened ComplianceProperties

  /** The checks from the HS code to the description all pass, stated on the
      raw payload. */
  ghost predicate FieldChecksPass(data: Payload, limits: Limits, hsFound: bool)
  {
    && data.hscode != "" && hsFound
    && !AllSpace(data.itemName) && !AllSpace(data.courier)
    && DimensionWithinLimits(data, limits, Weight) && DimensionWithinLimits(data, limits, Length)
    && DimensionWithinLimits(data, limits, Breadth) && DimensionWithinLimits(data, limits, Height)
    && !AllSpace(data.originCountry)
    && NumberOrZero(data.declaredValue) != 0.0
    && !AllSpace(data.inputText)
  }

  /** The checks after the field checks all pass. */
  ghost predicate LaterChecksPass(data: Payload, tables: Requirements, outcome: ClassifierOutcome)
  {
    var text := Strip(data.inputText);
    var value := NumberOrZero(data.declaredValue);
    && BannedIn(text) == {}
    && Strip(data.originCountry) !in BannedCountries
    && value <= OneLakh.Threshold()
    && !NeedsPaperwork(tables, DetectCategory(text), value)
    && outcome.Predicted? && outcome.prediction != 0
  }

  /** Every check of the evaluator passes. */
  ghost predicate AllChecksPass(data: Payload, limits: Limits, tables: Requirements, hsFound: bool, outcome: ClassifierOutcome)
  {
    FieldChecksPass(data, limits, hsFound) && LaterChecksPass(data, tables, outcome)
  }

  lemma NoFieldFailureExactlyWhenFieldChecksPass(data: Payload, limits: Limits, hsFound: bool)
    ensures (forall r :: !FieldFails(data, limits, hsFound, r)) <==> FieldChecksPass(data, limits, hsFound)
  {
    if forall r :: !FieldFails(data, limits, hsFound, r) {
      assert !FieldFails(data, limits, hsFound, Missing(HsCode));
      assert !FieldFails(data, limits, hsFound, HsCodeNotFound(data.hscode));
      assert !FieldFails(data, limits, hsFound, Missing(ItemName));
      assert !FieldFails(data, limits, hsFound, Missing(Courier));
      assert !FieldFails(data, limits, hsFound, OutOfRange(Weight));
      assert !FieldFails(data, limits, hsFound, OutOfRange(Length));
      assert !FieldFails(data, limits, hsFound, OutOfRange(Breadth));
      assert !FieldFails(data, limits, hsFound, OutOfRange(Height));
      assert !FieldFails(data, limits, hsFound, Missing(OriginCountry));
      assert !FieldFails(data, limits, hsFound, Missing(DeclaredValue));
      assert !FieldFails(data, limits, hsFound, Missing(Description));
    }
  }

  lemma NoLaterFailureExactlyWhenLaterChecksPass(data: Payload, tables: Requirements, outcome: ClassifierOutcome)
    ensures (forall r :: !LaterFails(data, tables, outcome, r)) <==> LaterChecksPass(data, tables, outcome)
  {
    if forall r :: !LaterFails(data, tables, outcome, r) {
      NoLaterFailureMeansLaterChecksPass(data, tables, outcome);
    }
    if LaterChecksPass(data, tables, outcome) {
      forall r ensures !LaterFails(data, tables, outcome, r) {
        PassingLaterChecksRaiseNothing(data, tables, outcome, r);
      }
    }
  }

  /** The later checks pass when none of the reasons they can give is called for. */
  lemma NoLaterFailureMeansLaterChecksPass(data: Payload, tables: Requirements, outcome: ClassifierOutcome)
    requires forall item :: !LaterFails(data, tables, outcome, Prohibited(item))
    requires !LaterFails(data, tables, outcome, RestrictedOrigin(Strip(data.originCountry)))
    requires !LaterFails(data, tables, outcome, ExceedsTier(OneLakh))
    requires !LaterFails(data, tables, outcome, AdditionalDocuments)
    requires !LaterFails(data, tables, outcome, VectorizationFailed)
    requires !LaterFails(data, tables, outcome, DescriptionNonCompliant)
    ensures LaterChecksPass(data, tables, outcome)
  {
    NoProhibitedReasonMeansNoneBanned(data, tables, outcome);
    NoOriginReasonMeansOriginAllowed(data, tables, outcome);
    NoPaperworkReasonMeansNoPaperwork(data, tables, outcome);
  }

  lemma NoProhibitedReasonMeansNoneBanned(data: Payload, tables: Requirements, outcome: ClassifierOutcome)
    requires forall item :: !LaterFails(data, tables, outcome, Prohibited(item))
    ensures BannedIn(Strip(data.inputText)) == {}
  {
    forall item ensures item !in BannedIn(Strip(data.inputText)) {
      assert !LaterFails(data, tables, outcome, Prohibited(item));
    }
  }

  lemma NoOriginReasonMeansOriginAllowed(data: Payload, tables: Requirements, outcome: ClassifierOutcome)
    requires !LaterFails(data, tables, outcome, RestrictedOrigin(Strip(data.originCountry)))
    ensures Strip(data.originCountry) !in BannedCountries
  {
  }

  lemma NoPaperworkReasonMeansNoPaperwork(data: Payload, tables: Requirements, outcome: ClassifierOutcome)
    requires !LaterFails(data, tables, outcome, AdditionalDocuments)
    ensures !NeedsPaperwork(tables, DetectCategory(Strip(data.inputText)), NumberOrZero(data.declaredValue))
  {
  }

  lemma PassingLaterChecksRaiseNothing(data: Payload, tables: Requirements, outcome: ClassifierOutcome, r: Reason)
    requires LaterChecksPass(data, tables, outcome)
    ensures !LaterFails(data, tables, outcome, r)
  {
    if r.ExceedsTier? {
      assert r.tier.Threshold() >= OneLakh.Threshold();
    }
  }

  /** No reason is called for exactly when every check passes. */
  lemma NothingRaisedExactlyWhenAllChecksPass(data: Payload, limits: Limits, tables: Requirements, hsFound: bool,
                                              outcome: ClassifierOutcome)
    ensures (forall r :: !Raised(data, limits, tables, hsFound, outcome, r)) <==> AllChecksPass(data, limits, tables, hsFound, outcome)
  {
    NoFieldFailureExactlyWhenFieldChecksPass(data, limits, hsFound);
    NoLaterFailureExactlyWhenLaterChecksPass(data, tables, outcome);
    if forall r :: !Raised(data, limits, tables, hsFound, outcome, r) {
      forall r ensures !FieldFails(data, limits, hsFound, r) && !LaterFails(data, tables, outcome, r) {
        assert !Raised(data, limits, tables, hsFound, outcome, r);
      }
    }
  }

  /** The report says "Compliant" exactly when it gives no reason, and exactly
      when every check passes; a compliant shipment needs no paperwork. */
  lemma CompliantExactlyWhenAllChecksPass(data: Payload, limits: Limits, tables: Requirements, hsFound: bool,
                                          outcome: ClassifierOutcome, order: seq<string>)
    requires Enumerates(order, BannedIn(Strip(data.inputText)))
    ensures var report := Evaluate(data, limits, tables, hsFound, outcome, order);
            && (report.status == Compliant <==> report.reasons == [])
            && (report.status == Compliant <==> AllChecksPass(data, limits, tables, hsFound, outcome))
            && (report.status == Compliant ==>
                  report.requiredDocuments == [] && report.requiredApprovals == [] && report.requiredCertifications == [])
  {
    var rs := AllReasons(data, limits, tables, hsFound, outcome, order);
    NothingRaisedExactlyWhenAllChecksPass(data, limits, tables, hsFound, outcome);
    if AllChecksPass(data, limits, tables, hsFound, outcome) {
      if rs != [] {
        AllReasonsExactly(data, limits, tables, hsFound, outcome, order, rs[0]);
        assert false;
      }
    } else {
      var r :| Raised(data, limits, tables, hsFound, outcome, r);
      AllReasonsExactly(data, limits, tables, hsFound, outcome, order, r);
    }
  }

  /** With the service's tables a category needs paperwork exactly when it is
      one of the three the description can name, or the value passes 1 Lakh. */
  lemma ServicePaperwork(category: Category, value: real)
    ensures NeedsPaperwork(ServiceRequirements, category, value) <==> category != Other || value > OneLakh.Threshold()
  {
    RequirementsExactlyForTableCategories(category.Name());
    assert "Other" !in TableCategories;
  }

  /** With the service's tables a shipment is compliant only when its
      description names none of the three categories. */
  lemma ServiceCompliantOnlyForOther(data: Payload, limits: Limits, hsFound: bool, outcome: ClassifierOutcome)
    ensures AllChecksPass(data, limits, ServiceRequirements, hsFound, outcome) ==>
      DetectCategory(Strip(data.inputText)) == Other && 0.0 != NumberOrZero(data.declaredValue) <= OneLakh.Threshold()
    ensures DetectCategory(Strip(data.inputText)) != Other ==> !AllChecksPass(data, limits, ServiceRequirements, hsFound, outcome)
  {
    ServicePaperwork(DetectCategory(Strip(data.inputText)), NumberOrZero(data.declaredValue));
  }

  lemma LaterChecksEndWithClassifier(data: Payload, tables: Requirements, outcome: ClassifierOutcome, rs: seq<Reason>)
    ensures var later := LaterChecks(data, tables, outcome, rs);
            && (outcome == VectorizationError ==> later != [] && later[|later| - 1] == VectorizationFailed)
            && (outcome == Predicted(0) ==> later != [] && later[|later| - 1] == DescriptionNonCompliant)
  {
  }

  /** The classifier's reason, when it gives one, is the report's last line. */
  lemma ClassifierReasonComesLast(data: Payload, limits: Limits, tables: Requirements, hsFound: bool,
                                  outcome: ClassifierOutcome, order: seq<string>)
    ensures var lines := Evaluate(data, limits, tables, hsFound, outcome, order).reasons;
            && (outcome == VectorizationError ==> lines != [] && lines[|lines| - 1] == VectorizationFailedText)
            && (outcome == Predicted(0) ==> lines != [] && lines[|lines| - 1] == NonCompliantText)
  {
    var rs := AllReasons(data, limits, tables, hsFound, outcome, order);
    ReportLinesAreMessages(data, limits, tables, hsFound, outcome, order);
    LaterChecksEndWithClassifier(data, tables, outcome, FieldReasons(data, limits, hsFound) + ProhibitedReasons(order));
    if rs != [] {
      LastMessage(rs);
    }
    ClassifierTexts();
  }

  lemma ReportLinesAreMessages(data: Payload, limits: Limits, tables: Requirements, hsFound: bool,
                               outcome: ClassifierOutcome, order: seq<string>)
    ensures Evaluate(data, limits, tables, hsFound, outcome, order).reasons == Messages(AllReasons(data, limits, tables, hsFound, outcome, order))
  {
  }

  lemma LastMessage(rs: seq<Reason>)
    requires rs != []
    ensures Messages(rs) != [] && Messages(rs)[|rs| - 1] == rs[|rs| - 1].Message()
  {
  }

  lemma ClassifierTexts()
    ensures VectorizationFailed.Message() == VectorizationFailedText
    ensures DescriptionNonCompliant.Message() == NonCompliantText
  {
  }

  /** "Declared value is missing." is reported exactly when the declared value
      is absent or zero. */
  lemma DeclaredValueMissingExactlyWhenZero(data: Payload, limits: Limits, tables: Requirements, hsFound: bool,
                                            outcome: ClassifierOutcome, order: seq<string>)
    requires Enumerates(order, BannedIn(Strip(data.inputText)))
    ensures "Declared value is missing." in Evaluate(data, limits, tables, hsFound, outcome, order).reasons
      <==> NumberOrZero(data.declaredValue) == 0.0
  {
    MissingDeclaredValueText();
    ReportedExactlyWhenRaised(data, limits, tables, hsFound, outcome, order, Missing(DeclaredValue));
  }

  lemma MissingDeclaredValueText()
    ensures Missing(DeclaredValue).Message() == "Declared value is missing."
  {
  }

  /** "Import from <country> is restricted." is reported exactly for the
      stripped origin country, and only when it is on the restricted list. */
  lemma RestrictedOriginReportedExactly(data: Payload, limits: Limits, tables: Requirements, hsFound: bool,
                                        outcome: ClassifierOutcome, order: seq<string>, country: string)
    requires Enumerates(order, BannedIn(Strip(data.inputText)))
    ensures "Import from " + country + " is restricted." in Evaluate(data, limits, tables, hsFound, outcome, order).reasons
      <==> country == Strip(data.originCountry) && country in BannedCountries
  {
    ReportedExactlyWhenRaised(data, limits, tables, hsFound, outcome, order, RestrictedOrigin(country));
  }

  /** "Item name is missing." is reported exactly when the item name is empty
      or all whitespace, whatever the other fields hold. */
  lemma ItemNameMissingExactlyWhenBlank(data: Payload, limits: Limits, tables: Requirements, hsFound: bool,
                                        outcome: ClassifierOutcome, order: seq<string>)
    requires Enumerates(order, BannedIn(Strip(data.inputText)))
    ensures "Item name is missing." in Evaluate(data, limits, tables, hsFound, outcome, order).reasons
      <==> AllSpace(data.itemName)
  {
    MissingItemNameText();
    ReportedExactlyWhenRaised(data, limits, tables, hsFound, outcome, order, Missing(ItemName));
  }

  lemma MissingItemNameText()
    ensures Missing(ItemName).Message() == "Item name is missing."
  {
  }

  /** A dimension is reported out of range exactly when its measurement (0 when
      absent) lies below the lower limit (0 when absent) or above the upper
      limit (none when absent); both limits are inclusive. */
  lemma DimensionReportedExactly(data: Payload, limits: Limits, tables: Requirements, hsFound: bool,
                                 outcome: ClassifierOutcome, order: seq<string>, dim: Dimension)
    requires Enumerates(order, BannedIn(Strip(data.inputText)))
    ensures var m := Measure(data, dim);
            var lo := MinKey(dim);
            var hi := MaxKey(dim);
            var reported := dim.Label() + " is out of allowed range." in Evaluate(data, limits, tables, hsFound, outcome, order).reasons;
            reported <==> (if lo in limits then m < limits[lo] else m < 0.0) || (hi in limits && m > limits[hi])
  {
    ReportedExactlyWhenRaised(data, limits, tables, hsFound, outcome, order, OutOfRange(dim));
  }

  /** Every detected banned product gives exactly one "<item> is prohibited."
      line, and no other product gives one. */
  lemma ProhibitedReportedOnce(data: Payload, limits: Limits, tables: Requirements, hsFound: bool,
                               outcome: ClassifierOutcome, order: seq<string>, item: string)
    requires Enumerates(order, BannedIn(Strip(data.inputText)))
    ensures multiset(Evaluate(data, limits, tables, hsFound, outcome, order).reasons)[item + " is prohibited."]
      == if item in BannedIn(Strip(data.inputText)) then 1 else 0
  {
    ReportedOnceWhenRaised(data, limits, tables, hsFound, outcome, order, Prohibited(item));
  }
}
