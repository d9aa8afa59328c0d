/**
 * The compliance evaluator for one shipment: every rule check in the order the
 * service runs them, the category inference, the declared-value escalation of
 * the required documents, and the final verdict.
 *
 * Two collaborators are parameters: the HS-code lookup against the reference
 * store is the boolean `hsFound`, and the text classifier's answer for the
 * description is a `ClassifierOutcome`.
 */
module Compliance {
  import opened Options
  import opened PyText
  import opened Tables
  import opened Reasons

  /** One shipment as posted. A text field the payload leaves out reads as "".
      A number the payload leaves out, or gives as 0, null or "", is `None`. */
  datatype Payload = Payload(
    hscode: string,
    itemName: string,
    courier: string,
    inputText: string,
    weight: Option<real>,
    length: Option<real>,
    breadth: Option<real>,
    height: Option<real>,
    originCountry: string,
    declaredValue: Option<real>)

  /** The baseline limits, keyed "min_weight", "max_weight", ..., "max_height";
      any key may be absent. */
  type Limits = map<string, real>

  /** What the description's vectorizer and classifier produced: a vector of
      the wrong kind, or the model's predicted label (0 means non-compliant). */
  datatype ClassifierOutcome = VectorizationError | Predicted(prediction: int)

  datatype Status = Compliant | Flagged

  /** The categories the description can be assigned to. */
  datatype Category = Electronics | Pharmaceuticals | Machinery | Other
  {
    /** The key under which the requirement tables list this category. */
    function Name(): (r: string)
    {
      match this
      case Electronics => "Electronics"
      case Pharmaceuticals => "Pharmaceuticals"
      case Machinery => "Machinery"
      case Other => "Other"
    }
  }

  /** The verdict for one shipment: the normalised input fields, the status,
      the reasons in the order they were found, and the required paperwork. */
  datatype Report = Report(
    hscode: string,
    itemName: string,
    courier: string,
    inputText: string,
    weight: real,
    length: real,
    breadth: real,
    height: real,
    originCountry: string,
    declaredValue: real,
    status: Status,
    reasons: seq<string>,
    requiredDocuments: seq<string>,
    requiredApprovals: seq<string>,
    requiredCertifications: seq<string>)

  /** Python's `float(value or 0)` on an already numeric value. */
  function NumberOrZero(v: Option<real>): (r: real)
    ensures v.Some? ==> r == v.value
    ensures r == 0.0 <==> v.None? || v.value == 0.0
  {
    match v
    case None => 0.0
    case Some(x) => x
  }

  function MinKey(dim: Dimension): (r: string)
  {
    match dim
    case Weight => "min_weight"
    case Length => "min_length"
    case Breadth => "min_breadth"
    case Height => "min_height"
  }

  function MaxKey(dim: Dimension): (r: string)
  {
    match dim
    case Weight => "max_weight"
    case Length => "max_length"
    case Breadth => "max_breadth"
    case Height => "max_height"
  }

  /** A lower limit absent from the baseline is 0. */
  function MinLimit(limits: Limits, key: string): (r: real)
  {
    if key in limits then limits[key] else 0.0
  }

  /** An upper limit absent from the baseline is unbounded (`None`). */
  function MaxLimit(limits: Limits, key: string): (r: Option<real>)
  {
    if key in limits then Some(limits[key]) else None
  }

  /** `lo <= v <= hi`, both ends inclusive, with `None` for an unbounded `hi`. */
  predicate WithinLimits(v: real, lo: real, hi: Option<real>)
  {
    lo <= v && (hi.None? || v <= hi.value)
  }

  /** The payload's measurement of `dim`, 0 when it is absent or blank. */
  function Measure(data: Payload, dim: Dimension): (r: real)
  {
    match dim
    case Weight => NumberOrZero(data.weight)
    case Length => NumberOrZero(data.length)
    case Breadth => NumberOrZero(data.breadth)
    case Height => NumberOrZero(data.height)
  }

  /** The check of one dimension against its baseline limits. */
  predicate DimensionWithinLimits(data: Payload, limits: Limits, dim: Dimension)
  {
    WithinLimits(Measure(data, dim), MinLimit(limits, MinKey(dim)), MaxLimit(limits, MaxKey(dim)))
  }

  /** The category of a (stripped) description, decided on its lower-case form
      by the first keyword rule that matches. */
  function DetectCategory(text: string): (r: Category)
  {
    var lower := Lower(text);
    if Contains(lower, "electronics") then Electronics
    else if Contains(lower, "medicine") || Contains(lower, "drug") || Contains(lower, "pharmaceutical") then Pharmaceuticals
    else if Contains(lower, "machine") || Contains(lower, "equipment") then Machinery
    else Other
  }

  /** The banned products named in a (stripped) description, ignoring case. */
  function BannedIn(text: string): (found: set<string>)
    ensures found <= BannedProducts
  {
    set item | item in BannedProducts && Contains(Lower(text), Lower(item))
  }

  /** `order` lists every element of `s` exactly once: one possible iteration
      order of the set. */
  ghost predicate Enumerates(order: seq<string>, s: set<string>)
  {
    Distinct(order) && (forall x :: x in order <==> x in s)
  }

  /** No element occurs twice in `xs`. */
  ghost predicate Distinct<T>(xs: seq<T>)
  {
    forall i, j :: 0 <= i < j < |xs| ==> xs[i] != xs[j]
  }

  /** An enumeration lists each element of the set exactly once. */
  lemma {:induction false} EnumerationLength(order: seq<string>, s: set<string>)
    requires Enumerates(order, s)
    ensures |order| == |s|
    decreases |order|
  {
    if order != [] {
      var rest := s - {order[0]};
      assert Enumerates(order[1..], rest) by {
        forall i, j | 0 <= i < j < |order| - 1 ensures order[1..][i] != order[1..][j] {
          assert order[1..][i] == order[i + 1] && order[1..][j] == order[j + 1];
        }
        forall y ensures y in order[1..] <==> y in rest {
          if y in order[1..] {
            var k :| 0 <= k < |order[1..]| && order[1..][k] == y;
            assert order[k + 1] == y;
          }
          if y in rest {
            var k :| 0 <= k < |order| && order[k] == y;
            assert k != 0;
            assert order[1..][k - 1] == y;
          }
        }
      }
      EnumerationLength(order[1..], rest);
      assert s == rest + {order[0]};
    }
  }

  /** `xs` followed by `ys` when `cond` holds, `xs` alone otherwise: a
      conditional append (or extend) of a list. */
  function AppendIf<T>(xs: seq<T>, cond: bool, ys: seq<T>): (r: seq<T>)
  {
    if cond then xs + ys else xs
  }

  /** The declared-value tiers a value reaches, lowest first: an independent
      description of the threshold checks. */
  function TiersReached(value: real): (r: seq<Tier>)
  {
    (if value > OneLakh.Threshold() then [OneLakh] else [])
    + (if value > TwentyFiveLakh.Threshold() then [TwentyFiveLakh] else [])
    + (if value > OneCrore.Threshold() then [OneCrore] else [])
  }

  /** The documents a sequence of tiers adds, tier after tier. */
  function TierDocuments(tiers: seq<Tier>): (r: seq<string>)
  {
    if tiers == [] then [] else tiers[0].Documents() + TierDocuments(tiers[1..])
  }

  function TierReasons(tiers: seq<Tier>): (rs: seq<Reason>)
    ensures |rs| == |tiers| && forall i :: 0 <= i < |tiers| ==> rs[i] == ExceedsTier(tiers[i])
  {
    if tiers == [] then [] else [ExceedsTier(tiers[0])] + TierReasons(tiers[1..])
  }

  /** One "is prohibited" reason per element of `order`, in that order. */
  function ProhibitedReasons(order: seq<string>): (rs: seq<Reason>)
    ensures |rs| == |order| && forall i :: 0 <= i < |order| ==> rs[i] == Prohibited(order[i])
  {
    if order == [] then [] else ProhibitedReasons(order[..|order| - 1]) + [Prohibited(order[|order| - 1])]
  }

  /** The rendering of a list of reasons as the report's lines. */
  function Messages(rs: seq<Reason>): (lines: seq<string>)
    ensures |lines| == |rs| && forall i :: 0 <= i < |rs| ==> lines[i] == rs[i].Message()
  {
    if rs == [] then [] else [rs[0].Message()] + Messages(rs[1..])
  }

  /** `rs` followed by the HS-code check's reason: the code is missing, or the
      reference store has no entry for it. */
  function HsCodeChecks(hscode: string, hsFound: bool, rs: seq<Reason>): (r: seq<Reason>)
  {
    if hscode == "" then rs + [Missing(HsCode)]
    else AppendIf(rs, !hsFound, [HsCodeNotFound(hscode)])
  }

  /** `rs` followed by the reasons of the item-name and courier checks. */
  function ShipperChecks(data: Payload, rs: seq<Reason>): (r: seq<Reason>)
  {
    var rs := AppendIf(rs, Strip(data.itemName) == "", [Missing(ItemName)]);
    AppendIf(rs, Strip(data.courier) == "", [Missing(Courier)])
  }

  /** `rs` followed by the reasons of the four dimension checks. */
  function DimensionChecks(data: Payload, limits: Limits, rs: seq<Reason>): (r: seq<Reason>)
  {
    var rs := AppendIf(rs, !DimensionWithinLimits(data, limits, Weight), [OutOfRange(Weight)]);
    var rs := AppendIf(rs, !DimensionWithinLimits(data, limits, Length), [OutOfRange(Length)]);
    var rs := AppendIf(rs, !DimensionWithinLimits(data, limits, Breadth), [OutOfRange(Breadth)]);
    AppendIf(rs, !DimensionWithinLimits(data, limits, Height), [OutOfRange(Height)])
  }

  /** `rs` followed by the reasons of the origin-country, declared-value and
      description checks. */
  function DeclarationChecks(data: Payload, rs: seq<Reason>): (r: seq<Reason>)
  {
    var rs := AppendIf(rs, Strip(data.originCountry) == "", [Missing(OriginCountry)]);
    var rs := AppendIf(rs, NumberOrZero(data.declaredValue) == 0.0, [Missing(DeclaredValue)]);
    AppendIf(rs, Strip(data.inputText) == "", [Missing(Description)])
  }

  /** The reasons from the HS-code check to the description check, in the
      order the checks run. */
  function FieldReasons(data: Payload, limits: Limits, hsFound: bool): (r: seq<Reason>)
  {
    DeclarationChecks(data, DimensionChecks(data, limits, ShipperChecks(data, HsCodeChecks(data.hscode, hsFound, []))))
  }

  /** `docs` followed by the documents of each threshold the value exceeds. */
  function EscalatedDocuments(docs: seq<string>, value: real): (r: seq<string>)
  {
    var docs := AppendIf(docs, value > OneLakh.Threshold(), OneLakh.Documents());
    var docs := AppendIf(docs, value > TwentyFiveLakh.Threshold(), TwentyFiveLakh.Documents());
    AppendIf(docs, value > OneCrore.Threshold(), OneCrore.Documents())
  }

  /** The required documents: the category's own list, then the documents of
      each threshold the value exceeds. */
  function DocumentsFor(tables: Requirements, category: Category, value: real): (r: seq<string>)
  {
    EscalatedDocuments(Lookup(tables.documents, category.Name()), value)
  }

  /** `rs` followed by one reason per threshold the value exceeds. */
  function EscalationReasons(value: real, rs: seq<Reason>): (r: seq<Reason>)
  {
    var rs := AppendIf(rs, value > OneLakh.Threshold(), [ExceedsTier(OneLakh)]);
    var rs := AppendIf(rs, value > TwentyFiveLakh.Threshold(), [ExceedsTier(TwentyFiveLakh)]);
    AppendIf(rs, value > OneCrore.Threshold(), [ExceedsTier(OneCrore)])
  }

  /** Whether the category (with the value escalation) requires any document,
      approval or certification at all. */
  predicate NeedsPaperwork(tables: Requirements, category: Category, value: real)
  {
    DocumentsFor(tables, category, value) != []
    || Lookup(tables.approvals, category.Name()) != []
    || Lookup(tables.certifications, category.Name()) != []
  }

  /** `rs` followed by the classifier's reason, if it has one. */
  function ClassifierReasons(outcome: ClassifierOutcome, rs: seq<Reason>): (r: seq<Reason>)
  {
    match outcome
    case VectorizationError => rs + [VectorizationFailed]
    case Predicted(prediction) => AppendIf(rs, prediction == 0, [DescriptionNonCompliant])
  }

  /** `rs` followed by the reasons of the checks after the banned products:
      the banned origin, the value thresholds, the paperwork and the
      classifier, in that order. */
  function LaterChecks(data: Payload, tables: Requirements, outcome: ClassifierOutcome, rs: seq<Reason>): (r: seq<Reason>)
  {
    var origin := Strip(data.originCountry);
    var value := NumberOrZero(data.declaredValue);
    var category := DetectCategory(Strip(data.inputText));
    var rs := AppendIf(rs, origin in BannedCountries, [RestrictedOrigin(origin)]);
    var rs := EscalationReasons(value, rs);
    var rs := AppendIf(rs, NeedsPaperwork(tables, category, value), [AdditionalDocuments]);
    ClassifierReasons(outcome, rs)
  }

  /** Every reason for one shipment, in the order the checks run, given the
      order in which the detected banned products are visited. */
  function AllReasons(data: Payload, limits: Limits, tables: Requirements, hsFound: bool, outcome: ClassifierOutcome, order: seq<string>): (r: seq<Reason>)
  {
    LaterChecks(data, tables, outcome, FieldReasons(data, limits, hsFound) + ProhibitedReasons(order))
  }

  /** The report the evaluator produces for one shipment, given the order in
      which the detected banned products are visited. */
  function Evaluate(data: Payload, limits: Limits, tables: Requirements, hsFound: bool, outcome: ClassifierOutcome, order: seq<string>): (r: Report)
  {
    var text := Strip(data.inputText);
    var category := DetectCategory(text);
    var value := NumberOrZero(data.declaredValue);
    var reasons := AllReasons(data, limits, tables, hsFound, outcome, order);
    Report(
      data.hscode, Strip(data.itemName), Strip(data.courier), text,
      NumberOrZero(data.weight), NumberOrZero(data.length), NumberOrZero(data.breadth), NumberOrZero(data.height),
      Strip(data.originCountry), value,
      if reasons == [] then Compliant else Flagged,
      Messages(reasons),
      DocumentsFor(tables, category, value),
      Lookup(tables.approvals, category.Name()),
      Lookup(tables.certifications, category.Name()))
  }

  /** The HS-code check. */
  method CheckHsCode(hscode: string, hsFound: bool, reasons: seq<Reason>) returns (reasons': seq<Reason>)
    ensures reasons' == HsCodeChecks(hscode, hsFound, reasons)
  {
    reasons' := reasons;
    if hscode == "" {
      reasons' := reasons' + [Missing(HsCode)];
    } else if !hsFound {
      reasons' := reasons' + [HsCodeNotFound(hscode)];
    }
  }

  /** The item-name and courier checks, each on the stripped field. */
  method CheckShipper(data: Payload, reasons: seq<Reason>) returns (reasons': seq<Reason>)
    ensures reasons' == ShipperChecks(data, reasons)
  {
    reasons' := reasons;
    var itemName := Strip(data.itemName);
    if itemName == "" {
      reasons' := reasons' + [Missing(ItemName)];
    }
    var courier := Strip(data.courier);
    if courier == "" {
      reasons' := reasons' + [Missing(Courier)];
    }
  }

  /** The four dimension checks: each measurement (0 when absent) must lie
      between the baseline minimum (0 when absent) and maximum (unbounded
      when absent), both inclusive. */
  method CheckDimensions(data: Payload, limits: Limits, reasons: seq<Reason>) returns (reasons': seq<Reason>)
    ensures reasons' == DimensionChecks(data, limits, reasons)
  {
    reasons' := reasons;
    var minWeight, maxWeight := MinLimit(limits, "min_weight"), MaxLimit(limits, "max_weight");
    var minLength, maxLength := MinLimit(limits, "min_length"), MaxLimit(limits, "max_length");
    var minBreadth, maxBreadth := MinLimit(limits, "min_breadth"), MaxLimit(limits, "max_breadth");
    var minHeight, maxHeight := MinLimit(limits, "min_height"), MaxLimit(limits, "max_height");

    var weight := NumberOrZero(data.weight);
    var length := NumberOrZero(data.length);
    var breadth := NumberOrZero(data.breadth);
    var height := NumberOrZero(data.height);

    if !WithinLimits(weight, minWeight, maxWeight) {
      reasons' := reasons' + [OutOfRange(Weight)];
    }
    if !WithinLimits(length, minLength, maxLength) {
      reasons' := reasons' + [OutOfRange(Length)];
    }
    if !WithinLimits(breadth, minBreadth, maxBreadth) {
      reasons' := reasons' + [OutOfRange(Breadth)];
    }
    if !WithinLimits(height, minHeight, maxHeight) {
      reasons' := reasons' + [OutOfRange(Height)];
    }
  }

  /** The origin-country, declared-value (0 counts as missing) and description
      checks, on the stripped fields. */
  method CheckDeclaration(data: Payload, reasons: seq<Reason>) returns (reasons': seq<Reason>)
    ensures reasons' == DeclarationChecks(data, reasons)
  {
    reasons' := reasons;
    var originCountry := Strip(data.originCountry);
    var declaredValue := NumberOrZero(data.declaredValue);
    var inputText := Strip(data.inputText);
    if originCountry == "" {
      reasons' := reasons' + [Missing(OriginCountry)];
    }
    if declaredValue == 0.0 {
      reasons' := reasons' + [Missing(DeclaredValue)];
    }
    if inputText == "" {
      reasons' := reasons' + [Missing(Description)];
    }
  }

  /** The checks from the HS code to the description, in order, starting from
      an empty list of reasons. */
  method CheckFields(data: Payload, limits: Limits, hsFound: bool) returns (reasons: seq<Reason>)
    ensures reasons == FieldReasons(data, limits, hsFound)
  {
    reasons := CheckHsCode(data.hscode, hsFound, []);
    reasons := CheckShipper(data, reasons);
    reasons := CheckDimensions(data, limits, reasons);
    reasons := CheckDeclaration(data, reasons);
  }

  /** Appends "<item> is prohibited." for every detected banned product,
      visiting the set in an unspecified order (that of a Python set);
      `order` records the order taken. */
  method ReportBannedProducts(reasons: seq<Reason>, bannedDetected: set<string>)
    returns (reasons': seq<Reason>, ghost order: seq<string>)
    ensures Enumerates(order, bannedDetected)
    ensures reasons' == reasons + ProhibitedReasons(order)
    ensures reasons'[..|reasons|] == reasons && OnePerBannedItem(reasons'[|reasons|..], bannedDetected)
  {
    var pending := bannedDetected;
    reasons' := reasons;
    order := [];
    while pending != {}
      invariant pending <= bannedDetected
      invariant Enumerates(order, bannedDetected - pending)
      invariant reasons' == reasons + ProhibitedReasons(order)
      decreases pending
    {
      var item :| item in pending;
      ProhibitedReasonsSnoc(order, item);
      EnumeratesSnoc(order, bannedDetected - pending, item);
      reasons' := reasons' + [Prohibited(item)];
      order := order + [item];
      assert bannedDetected - (pending - {item}) == (bannedDetected - pending) + {item};
      pending := pending - {item};
    }
    assert bannedDetected - pending == bannedDetected;
    ProhibitedReasonsOfEnumeration(reasons, order, bannedDetected);
  }

  /** `rs` holds one "is prohibited" reason per element of `items`, and
      nothing else. */
  ghost predicate OnePerBannedItem(rs: seq<Reason>, items: set<string>)
  {
    && |rs| == |items|
    && forall r: Reason :: r in rs <==> r.Prohibited? && r.item in items
  }

  /** Whatever the order, appending the prohibited reasons of an enumeration
      appends one reason per element of the set. */
  lemma ProhibitedReasonsOfEnumeration(reasons: seq<Reason>, order: seq<string>, s: set<string>)
    requires Enumerates(order, s)
    ensures var extended := reasons + ProhibitedReasons(order);
            extended[..|reasons|] == reasons && OnePerBannedItem(extended[|reasons|..], s)
  {
    assert (reasons + ProhibitedReasons(order))[|reasons|..] == ProhibitedReasons(order);
    assert (reasons + ProhibitedReasons(order))[..|reasons|] == reasons;
    EnumerationLength(order, s);
    forall r: Reason | r.Prohibited? && r.item in s ensures r in ProhibitedReasons(order) {
      var i :| 0 <= i < |order| && order[i] == r.item;
      assert ProhibitedReasons(order)[i] == r;
    }
  }

  lemma ProhibitedReasonsSnoc(order: seq<string>, item: string)
    ensures ProhibitedReasons(order + [item]) == ProhibitedReasons(order) + [Prohibited(item)]
  {
    assert (order + [item])[..|order|] == order;
  }

  /** Visiting one more element not yet visited extends an enumeration. */
  lemma EnumeratesSnoc(order: seq<string>, visited: set<string>, item: string)
    requires Enumerates(order, visited) && item !in visited
    ensures Enumerates(order + [item], visited + {item})
  {
    var order' := order + [item];
    forall i, j | 0 <= i < j < |order'| ensures order'[i] != order'[j] {
      if j == |order| {
        assert order[i] in visited;
      }
    }
  }

  /** The declared-value thresholds: each one the value exceeds appends its
      documents to `requiredDocs` and one reason to `reasons`. */
  method EscalateByValue(requiredDocs: seq<string>, declaredValue: real, reasons: seq<Reason>)
    returns (requiredDocs': seq<string>, reasons': seq<Reason>)
    ensures requiredDocs' == EscalatedDocuments(requiredDocs, declaredValue)
    ensures reasons' == EscalationReasons(declaredValue, reasons)
  {
    requiredDocs' := requiredDocs;
    reasons' := reasons;
    // `requiredDocs'` starts out as the table's own list; it is copied before
    // the first append, and every later append needs a higher value than the
    // first threshold, so the shared table list is never appended to.
    ghost var sharesTableList := true;
    if declaredValue > 100000.0 {
      sharesTableList := false;
      requiredDocs' := requiredDocs' + ["Self-declaration"];
      reasons' := reasons' + [ExceedsTier(OneLakh)];
    }
    if declaredValue > 2500000.0 {
      assert !sharesTableList;
      requiredDocs' := requiredDocs' + ["Bank Realization Certificate (BRC)"];
      requiredDocs' := requiredDocs' + ["Letter of Credit (if applicable)"];
      reasons' := reasons' + [ExceedsTier(TwentyFiveLakh)];
    }
    if declaredValue > 10000000.0 {
      assert !sharesTableList;
      requiredDocs' := requiredDocs' + ["Customs Valuation Certificate"];
      requiredDocs' := requiredDocs' + ["CA Certificate"];
      reasons' := reasons' + [ExceedsTier(OneCrore)];
    }
  }

  /** The checks after the banned products: the banned origin, the category's
      lists, the value thresholds, the paperwork reason, and the classifier's
      verdict on the description. Returns the reasons extended in that order
      and the category's required documents, approvals and certifications. */
  method CheckOriginPaperworkAndClassifier(data: Payload, tables: Requirements, outcome: ClassifierOutcome, reasons: seq<Reason>)
    returns (reasons': seq<Reason>, requiredDocs: seq<string>, requiredApprovals: seq<string>, requiredCertifications: seq<string>)
    ensures reasons' == LaterChecks(data, tables, outcome, reasons)
    ensures requiredDocs == DocumentsFor(tables, DetectCategory(Strip(data.inputText)), NumberOrZero(data.declaredValue))
    ensures requiredApprovals == Lookup(tables.approvals, DetectCategory(Strip(data.inputText)).Name())
    ensures requiredCertifications == Lookup(tables.certifications, DetectCategory(Strip(data.inputText)).Name())
  {
    var inputText := Strip(data.inputText);
    var originCountry := Strip(data.originCountry);
    var declaredValue := NumberOrZero(data.declaredValue);
    reasons' := reasons;

    if originCountry in BannedCountries {
      reasons' := reasons' + [RestrictedOrigin(originCountry)];
    }

    var category := DetectCategory(inputText);
    requiredDocs := Lookup(tables.documents, category.Name());
    requiredApprovals := Lookup(tables.approvals, category.Name());
    requiredCertifications := Lookup(tables.certifications, category.Name());

    requiredDocs, reasons' := EscalateByValue(requiredDocs, declaredValue, reasons');

    if requiredDocs != [] || requiredApprovals != [] || requiredCertifications != [] {
      reasons' := reasons' + [AdditionalDocuments];
    }

    match outcome {
      case VectorizationError =>
        reasons' := reasons' + [VectorizationFailed];
      case Predicted(prediction) =>
        if prediction == 0 {
          reasons' := reasons' + [DescriptionNonCompliant];
        }
    }
  }

  /** Evaluates one shipment: the field checks, the banned products, the banned
      origin, the category's lists, the value thresholds, the paperwork reason,
      and the classifier's verdict on the description, in that order. */
  method CheckComplianceForPayload(data: Payload, limits: Limits, tables: Requirements, hsFound: bool, outcome: ClassifierOutcome)
    returns (report: Report, ghost order: seq<string>)
    ensures Enumerates(order, BannedIn(Strip(data.inputText)))
    ensures report == Evaluate(data, limits, tables, hsFound, outcome, order)
    ensures report.status == Compliant <==> report.reasons == []
    ensures report.requiredDocuments == DocumentsFor(tables, DetectCategory(Strip(data.inputText)), NumberOrZero(data.declaredValue))
  {
    var reasons := CheckFields(data, limits, hsFound);
    var inputText := Strip(data.inputText);

    var bannedDetected := BannedIn(inputText);
    reasons, order := ReportBannedProducts(reasons, bannedDetected);

    var requiredDocs, requiredApprovals, requiredCertifications;
    reasons, requiredDocs, requiredApprovals, requiredCertifications :=
      CheckOriginPaperworkAndClassifier(data, tables, outcome, reasons);

    var status := if reasons == [] then Compliant else Flagged;
    report := Report(
      data.hscode, Strip(data.itemName), Strip(data.courier), inputText,
      NumberOrZero(data.weight), NumberOrZero(data.length), NumberOrZero(data.breadth), NumberOrZero(data.height),
      Strip(data.originCountry), NumberOrZero(data.declaredValue), status, Messages(reasons),
      requiredDocs, requiredApprovals, requiredCertifications);
  }
}
