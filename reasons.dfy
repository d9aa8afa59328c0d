/**
 * The reasons a compliance report can give, one constructor per kind of message
 * the evaluator appends, and their rendering as the report's text. `Parse`
 * inverts `Message`, so two different reasons never read the same in a report.
 */
module Reasons {
  import opened Options

  /** The compulsory fields whose absence is reported as "<name> is missing.". */
  datatype Field = HsCode | ItemName | Courier | OriginCountry | DeclaredValue | Description
  {
    function Label(): (r: string)
    {
      match this
      case HsCode => "HS code"
      case ItemName => "Item name"
      case Courier => "Courier information"
      case OriginCountry => "Origin country"
      case DeclaredValue => "Declared value"
      case Description => "Product description"
    }
  }

  /** The four measured dimensions, in the order they are checked. */
  datatype Dimension = Weight | Length | Breadth | Height
  {
    function Label(): (r: string)
    {
      match this
      case Weight => "Weight"
      case Length => "Length"
      case Breadth => "Breadth"
      case Height => "Height"
    }
  }

  /** The declared-value tiers (amounts in INR), from the lowest up. */
  datatype Tier = OneLakh | TwentyFiveLakh | OneCrore
  {
    /** A declared value strictly above this amount reaches the tier. */
    function Threshold(): (r: real)
    {
      match this
      case OneLakh => 100000.0
      case TwentyFiveLakh => 2500000.0
      case OneCrore => 10000000.0
    }

    /** The documents the tier adds to the required documents, in order. */
    function Documents(): (r: seq<string>)
    {
      match this
      case OneLakh => ["Self-declaration"]
      case TwentyFiveLakh => ["Bank Realization Certificate (BRC)", "Letter of Credit (if applicable)"]
      case OneCrore => ["Customs Valuation Certificate", "CA Certificate"]
    }
  }

  datatype Reason =
    | Missing(field: Field)
    | HsCodeNotFound(code: string)
    | OutOfRange(dim: Dimension)
    | Prohibited(item: string)
    | RestrictedOrigin(country: string)
    | ExceedsTier(tier: Tier)
    | AdditionalDocuments
    | VectorizationFailed
    | DescriptionNonCompliant
  {
    /** The text the report carries for this reason. */
    function Message(): (r: string)
    {
      match this
      case Missing(field) => field.Label() + MissingSuffix
      case HsCodeNotFound(code) => NotFoundPrefix + code + NotFoundSuffix
      case OutOfRange(dim) => dim.Label() + OutOfRangeSuffix
      case Prohibited(item) => item + ProhibitedSuffix
      case RestrictedOrigin(country) => RestrictedPrefix + country + RestrictedSuffix
      case ExceedsTier(OneLakh) => OneLakhText
      case ExceedsTier(TwentyFiveLakh) => TwentyFiveLakhText
      case ExceedsTier(OneCrore) => OneCroreText
      case AdditionalDocuments => AdditionalDocumentsText
      case VectorizationFailed => VectorizationFailedText
      case DescriptionNonCompliant => NonCompliantText
    }
  }

  const OneLakhText := "Declared value exceeds 1 Lakh INR: Self-declaration required."
  const TwentyFiveLakhText := "Declared value exceeds 25 Lakh INR: BRC and Letter of Credit required."
  const OneCroreText :=
    "Declared value exceeds 1 Crore INR: Customs Valuation Certificate and CA Certificate required."
  const AdditionalDocumentsText := "Product requires additional documents or approvals."
  const VectorizationFailedText := "Error in vectorization. Check the TF-IDF model."
  const NonCompliantText := "Product description does not meet compliance standards."
  const MissingSuffix := " is missing."
  const OutOfRangeSuffix := " is out of allowed range."
  const NotFoundPrefix := "HS code "
  const NotFoundSuffix := " not found in records."
  const RestrictedPrefix := "Import from "
  const RestrictedSuffix := " is restricted."
  const ProhibitedSuffix := " is prohibited."

  predicate EndsWith(s: string, suffix: string)
  {
    |suffix| <= |s| && s[|s| - |suffix|..] == suffix
  }

  /** A text that ends with `suffix` is its front followed by `suffix`. */
  lemma SplitSuffix(s: string, suffix: string)
    requires EndsWith(s, suffix)
    ensures s == s[..|s| - |suffix|] + suffix
  {
  }

  /** A text that starts with `prefix` and ends with `suffix`, not overlapping,
      is `prefix`, its middle, then `suffix`. */
  lemma SplitAffixes(s: string, prefix: string, suffix: string)
    requires prefix <= s && EndsWith(s, suffix) && |prefix| + |suffix| <= |s|
    ensures s == prefix + s[|prefix|..|s| - |suffix|] + suffix
  {
    assert s == s[..|prefix|] + s[|prefix|..|s| - |suffix|] + s[|s| - |suffix|..];
  }

  /** Appending `suffix` gives a text that ends with it and whose front is the
      original text; the character `k` places into the suffix is `suffix[k]`. */
  lemma JoinSuffix(body: string, suffix: string)
    ensures EndsWith(body + suffix, suffix) && (body + suffix)[..|body|] == body
    ensures forall k :: 0 <= k < |suffix| ==> (body + suffix)[|body| + k] == suffix[k]
  {
    assert (body + suffix)[|body|..] == suffix;
  }

  /** Wrapping `body` in `prefix` and `suffix` gives a text with that prefix and
      suffix whose middle is `body`. */
  lemma JoinAffixes(prefix: string, body: string, suffix: string)
    ensures var s := prefix + body + suffix;
            && prefix <= s && EndsWith(s, suffix) && |prefix| + |suffix| <= |s|
            && s[|prefix|..|s| - |suffix|] == body
    ensures forall k :: 0 <= k < |suffix| ==> (prefix + body + suffix)[|prefix| + |body| + k] == suffix[k]
  {
    var s := prefix + body + suffix;
    assert s[..|prefix|] == prefix;
    assert s[|s| - |suffix|..] == suffix;
    assert s[|prefix|..|s| - |suffix|] == body;
  }

  /** The field whose name is `s`, if any. */
  function ParseField(s: string): (r: Option<Field>)
    ensures r.Some? ==> r.value.Label() == s
  {
    if s == "HS code" then Some(HsCode)
    else if s == "Item name" then Some(ItemName)
    else if s == "Courier information" then Some(Courier)
    else if s == "Origin country" then Some(OriginCountry)
    else if s == "Declared value" then Some(DeclaredValue)
    else if s == "Product description" then Some(Description)
    else None
  }

  /** The dimension whose name is `s`, if any. */
  function ParseDimension(s: string): (r: Option<Dimension>)
    ensures r.Some? ==> r.value.Label() == s
  {
    if s == "Weight" then Some(Weight)
    else if s == "Length" then Some(Length)
    else if s == "Breadth" then Some(Breadth)
    else if s == "Height" then Some(Height)
    else None
  }

  /** The reason, among those whose text is a single fixed sentence, that reads `s`. */
  function ParseSentence(s: string): (r: Option<Reason>)
    ensures r.Some? ==> r.value.Message() == s
  {
    if s == OneLakhText then Some(ExceedsTier(OneLakh))
    else if s == TwentyFiveLakhText then Some(ExceedsTier(TwentyFiveLakh))
    else if s == OneCroreText then Some(ExceedsTier(OneCrore))
    else if s == AdditionalDocumentsText then Some(AdditionalDocuments)
    else if s == VectorizationFailedText then Some(VectorizationFailed)
    else if s == NonCompliantText then Some(DescriptionNonCompliant)
    else None
  }

  /** "HS code <code> not found in records." */
  function ParseNotFound(s: string): (r: Option<Reason>)
    ensures r.Some? ==> r.value.Message() == s
  {
    if NotFoundPrefix <= s && EndsWith(s, NotFoundSuffix) && |NotFoundPrefix| + |NotFoundSuffix| <= |s| then
      SplitAffixes(s, NotFoundPrefix, NotFoundSuffix);
      Some(HsCodeNotFound(s[|NotFoundPrefix|..|s| - |NotFoundSuffix|]))
    else
      None
  }

  /** "Import from <country> is restricted." */
  function ParseRestricted(s: string): (r: Option<Reason>)
    ensures r.Some? ==> r.value.Message() == s
  {
    if RestrictedPrefix <= s && EndsWith(s, RestrictedSuffix) && |RestrictedPrefix| + |RestrictedSuffix| <= |s| then
      SplitAffixes(s, RestrictedPrefix, RestrictedSuffix);
      Some(RestrictedOrigin(s[|RestrictedPrefix|..|s| - |RestrictedSuffix|]))
    else
      None
  }

  /** "<item> is prohibited." */
  function ParseProhibited(s: string): (r: Option<Reason>)
    ensures r.Some? ==> r.value.Message() == s
  {
    if EndsWith(s, ProhibitedSuffix) then
      SplitSuffix(s, ProhibitedSuffix);
      Some(Prohibited(s[..|s| - |ProhibitedSuffix|]))
    else
      None
  }

  /** "<field> is missing." */
  function ParseMissing(s: string): (r: Option<Reason>)
    ensures r.Some? ==> r.value.Message() == s
  {
    if EndsWith(s, MissingSuffix) then
      SplitSuffix(s, MissingSuffix);
      match ParseField(s[..|s| - |MissingSuffix|])
      case Some(field) => Some(Missing(field))
      case None => None
    else
      None
  }

  /** "<dimension> is out of allowed range." */
  function ParseOutOfRange(s: string): (r: Option<Reason>)
    ensures r.Some? ==> r.value.Message() == s
  {
    if EndsWith(s, OutOfRangeSuffix) then
      SplitSuffix(s, OutOfRangeSuffix);
      match ParseDimension(s[..|s| - |OutOfRangeSuffix|])
      case Some(dim) => Some(OutOfRange(dim))
      case None => None
    else
      None
  }

  /** Recovers the reason a report line was rendered from; `None` for text that
      no reason renders to. */
  function Parse(s: string): (r: Option<Reason>)
    ensures r.Some? ==> r.value.Message() == s
  {
    if EndsWith(s, NotFoundSuffix) then ParseNotFound(s)
    else if EndsWith(s, RestrictedSuffix) then ParseRestricted(s)
    else if EndsWith(s, ProhibitedSuffix) then ParseProhibited(s)
    else if EndsWith(s, MissingSuffix) then ParseMissing(s)
    else if EndsWith(s, OutOfRangeSuffix) then ParseOutOfRange(s)
    else ParseSentence(s)
  }

  /** `s` does not end with `suffix` when they differ at the `k`-th character of
      the suffix. */
  lemma NotEndsWithAt(s: string, suffix: string, k: nat)
    requires k < |suffix| <= |s| && s[|s| - |suffix| + k] != suffix[k]
    ensures !EndsWith(s, suffix)
  {
  }

  /** The characters that tell the five suffixes apart. */
  lemma SuffixMarks()
    ensures |NotFoundSuffix| == 22 && NotFoundSuffix[20] == 's'
    ensures |RestrictedSuffix| == 15 && RestrictedSuffix[13] == 'd' && RestrictedSuffix[10] == 'c'
    ensures |ProhibitedSuffix| == 15 && ProhibitedSuffix[13] == 'd' && ProhibitedSuffix[10] == 'i'
    ensures |MissingSuffix| == 12 && MissingSuffix[10] == 'g'
    ensures |OutOfRangeSuffix| == 25 && OutOfRangeSuffix[23] == 'e'
    ensures |NotFoundPrefix| == 8 && |RestrictedPrefix| == 12
  {
  }

  /** Parsing a reason's text gives that reason back: `Message` is one-to-one,
      and `Parse` is its inverse on every text a report can contain. */
  lemma ParseMessage(r: Reason)
    ensures Parse(r.Message()) == Some(r)
  {
    match r
    case Missing(field) => ParseMissingMessage(field);
    case OutOfRange(dim) => ParseOutOfRangeMessage(dim);
    case HsCodeNotFound(code) => ParseNotFoundMessage(code);
    case RestrictedOrigin(country) => ParseRestrictedMessage(country);
    case Prohibited(item) => ParseProhibitedMessage(item);
    case ExceedsTier(tier) => ParseTierMessage(tier);
    case AdditionalDocuments => ParseAdditionalDocumentsMessage();
    case VectorizationFailed => ParseVectorizationFailedMessage();
    case DescriptionNonCompliant => ParseNonCompliantMessage();
  }

  lemma ParseNotFoundMessage(code: string)
    ensures Parse(HsCodeNotFound(code).Message()) == Some(HsCodeNotFound(code))
  {
    JoinAffixes(NotFoundPrefix, code, NotFoundSuffix);
  }

  lemma ParseRestrictedMessage(country: string)
    ensures Parse(RestrictedOrigin(country).Message()) == Some(RestrictedOrigin(country))
  {
    var s := RestrictedPrefix + country + RestrictedSuffix;
    JoinAffixes(RestrictedPrefix, country, RestrictedSuffix);
    SuffixMarks();
    assert s[|s| - 2] == 'd';
    NotEndsWithAt(s, NotFoundSuffix, 20);
  }

  lemma ParseProhibitedMessage(item: string)
    ensures Parse(Prohibited(item).Message()) == Some(Prohibited(item))
  {
    var s := item + ProhibitedSuffix;
    JoinSuffix(item, ProhibitedSuffix);
    SuffixMarks();
    assert s[|s| - 2] == 'd' && s[|s| - 5] == 'i';
    if |s| >= |NotFoundSuffix| {
      NotEndsWithAt(s, NotFoundSuffix, 20);
    }
    NotEndsWithAt(s, RestrictedSuffix, 10);
  }

  lemma ParseFieldLabel(field: Field)
    ensures ParseField(field.Label()) == Some(field)
  {
  }

  lemma ParseDimensionLabel(dim: Dimension)
    ensures ParseDimension(dim.Label()) == Some(dim)
  {
  }

  lemma ParseMissingMessage(field: Field)
    ensures Parse(Missing(field).Message()) == Some(Missing(field))
  {
    ParseFieldLabel(field);
    ParseMissingName(field.Label(), field);
  }

  lemma ParseMissingName(name: string, field: Field)
    requires ParseField(name) == Some(field)
    ensures Parse(name + MissingSuffix) == Some(Missing(field))
  {
    var s := name + MissingSuffix;
    JoinSuffix(name, MissingSuffix);
    SuffixMarks();
    assert s[|s| - 2] == 'g';
    if |s| >= |NotFoundSuffix| {
      NotEndsWithAt(s, NotFoundSuffix, 20);
    }
    if |s| >= |RestrictedSuffix| {
      NotEndsWithAt(s, RestrictedSuffix, 13);
      NotEndsWithAt(s, ProhibitedSuffix, 13);
    }
  }

  lemma ParseOutOfRangeMessage(dim: Dimension)
    ensures Parse(OutOfRange(dim).Message()) == Some(OutOfRange(dim))
  {
    ParseDimensionLabel(dim);
    ParseOutOfRangeName(dim.Label(), dim);
  }

  lemma ParseOutOfRangeName(name: string, dim: Dimension)
    requires ParseDimension(name) == Some(dim)
    ensures Parse(name + OutOfRangeSuffix) == Some(OutOfRange(dim))
  {
    var s := name + OutOfRangeSuffix;
    JoinSuffix(name, OutOfRangeSuffix);
    SuffixMarks();
    assert s[|s| - 2] == 'e';
    if |s| >= |NotFoundSuffix| {
      NotEndsWithAt(s, NotFoundSuffix, 20);
    }
    NotEndsWithAt(s, RestrictedSuffix, 13);
    NotEndsWithAt(s, ProhibitedSuffix, 13);
    NotEndsWithAt(s, MissingSuffix, 10);
  }

  /** The six one-sentence texts match none of the patterns tried before the
      sentence lookup. */
  lemma SentenceMatchesNoPattern(s: string, c: char)
    requires |s| >= |OutOfRangeSuffix| && s[|s| - 1] == '.' && s[|s| - 2] == c
    requires c in {'d', 's', 'l'}
    requires c == 'd' ==> s[|s| - 4] == 'r'
    requires c == 's' ==> s[|s| - 3] != 'd' || s[|s| - 5] == 'a'
    ensures !EndsWith(s, NotFoundSuffix) && !EndsWith(s, RestrictedSuffix) && !EndsWith(s, ProhibitedSuffix)
    ensures !EndsWith(s, MissingSuffix) && !EndsWith(s, OutOfRangeSuffix)
  {
    if c == 'd' {
      NotEndsWithAt(s, NotFoundSuffix, 20);
      NotEndsWithAt(s, RestrictedSuffix, 11);
      NotEndsWithAt(s, ProhibitedSuffix, 11);
    } else if c == 'l' {
      NotEndsWithAt(s, NotFoundSuffix, 20);
      NotEndsWithAt(s, RestrictedSuffix, 13);
      NotEndsWithAt(s, ProhibitedSuffix, 13);
    } else {
      if s[|s| - 3] != 'd' {
        NotEndsWithAt(s, NotFoundSuffix, 19);
      } else {
        NotEndsWithAt(s, NotFoundSuffix, 17);
      }
      NotEndsWithAt(s, RestrictedSuffix, 13);
      NotEndsWithAt(s, ProhibitedSuffix, 13);
    }
    NotEndsWithAt(s, MissingSuffix, 10);
    NotEndsWithAt(s, OutOfRangeSuffix, 23);
  }

  lemma ParseTierMessage(tier: Tier)
    ensures Parse(ExceedsTier(tier).Message()) == Some(ExceedsTier(tier))
  {
    var s := ExceedsTier(tier).Message();
    SentenceMatchesNoPattern(s, 'd');
  }

  lemma ParseAdditionalDocumentsMessage()
    ensures Parse(AdditionalDocumentsText) == Some(AdditionalDocuments)
  {
    SentenceMatchesNoPattern(AdditionalDocumentsText, 's');
  }

  lemma ParseVectorizationFailedMessage()
    ensures Parse(VectorizationFailedText) == Some(VectorizationFailed)
  {
    SentenceMatchesNoPattern(VectorizationFailedText, 'l');
  }

  lemma ParseNonCompliantMessage()
    ensures Parse(NonCompliantText) == Some(DescriptionNonCompliant)
  {
    SentenceMatchesNoPattern(NonCompliantText, 's');
  }

  /** Two reasons that read the same are the same reason. */
  lemma MessageInjective(a: Reason, b: Reason)
    ensures a.Message() == b.Message() <==> a == b
  {
    ParseMessage(a);
    ParseMessage(b);
  }
}
