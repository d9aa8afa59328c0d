# CompliAI shipment compliance evaluator, in Dafny

This project models the rule evaluator of the CompliAI backend. The evaluator is
`check_compliance_for_payload` in `app.py`, together with the constant tables it
consults. It receives one shipment record and returns a verdict record with:

- the normalised input fields;
- a status, `Compliant` or `Flagged`;
- the ordered list of reasons;
- the documents, approvals and certifications the shipment's category requires.

The checks run in a fixed order:

1. HS-code presence and lookup.
2. Item name and courier presence.
3. Inclusive range checks on weight, length, breadth and height against the
   baseline limits.
4. Origin-country, declared-value and description presence.
5. The banned-product scan.
6. The banned-origin check.
7. The declared-value tiers (1 Lakh, 25 Lakh and 1 Crore INR). Each tier the
   value exceeds adds documents and a reason.
8. The generic "additional documents" reason.
9. The text classifier's reason.

The modules are:

- `PyText` (`pytext.dfy`) models Python's `str.strip()` (with the full
  `str.isspace` set), `str.lower()` on ASCII letters, and the substring test `in`.
- `Tables` (`tables.dfy`) holds the banned products and countries and the three
  requirement tables, copied entry for entry.
- `Reasons` (`reasons.dfy`) gives one constructor per kind of reason, with
  `Message()` for the exact text the report carries. `Parse` inverts
  `Message()`, so no two reasons read the same.
- `Compliance` (`compliance.dfy`) has the payload, limits and report
  datatypes, the specification functions and the imperative evaluator:
  - The specification functions are written in the accumulator style of the
    source's appends (`HsCodeChecks`, ..., `LaterChecks`, `AllReasons`,
    `Evaluate`).
  - The evaluator is `CheckComplianceForPayload` and its phase methods. Each
    phase extends a local sequence of reasons step by step, as the source does,
    and is proved equal to its specification function.
- `ComplianceProperties` (`properties.dfy`):
  - a reason is reported exactly when its check fails, and then exactly once;
  - every report line comes from a failing check;
  - the verdict does not depend on the order in which the banned-product set
    is iterated.
- `Verdict` (`verdict.dfy`):
  - the status is `Compliant` exactly when no reason is given, and exactly when
    every check passes;
  - with the service's tables, only the catch-all category "Other" with a value
    of at most 1 Lakh INR can be compliant;
  - the classifier's reason is always last;
  - the per-field statements at the level of the report's text.
- `DetectionProperties` (`detection.dfy`): the banned-product and category
  detection is case-insensitive substring search, and the category follows the
  whole rule chain in order: "electronics" first, then the three drug keywords,
  then "machine" or "equipment", and "Other" when none of the six is spelled.
- `TierProperties` (`tiers.dfy`): the value tiers are strict, cumulative and in
  order, and above 1 Crore INR all five extra documents are added.

Two outside calls become parameters of the evaluator:

- The HS-code lookup in the reference store (`app.py:204`) becomes
  `hsFound: bool`.
- The vectorizer and classifier (`app.py:304-309`) become a `ClassifierOutcome`:
  `VectorizationError` when the vector is not a SciPy `csr_matrix`, or
  `Predicted(label)`.

The baseline limits are a `map<string, real>`. A missing lower bound is 0. A
missing upper bound is `None`, meaning unbounded (Python's `float("inf")`).

Payload numbers are `Option<real>`, where `None` stands for an absent or falsy
value. It reads as 0, as `float(x or 0)` does.

The requirement tables are passed as a `Requirements` value. The service's
constants are `Tables.ServiceRequirements`, and the lemmas about the service's
behaviour use exactly that value. Because the tables are immutable values, the
tables are never changed by evaluation. `EscalateByValue` also records, in a
ghost flag, that the category's list is copied before the first append, as at
`app.py:283-284`. Every later append happens only when the value also exceeds
1 Lakh, so the copy has always been made.

The banned products are found as a set (`app.py:253-255`), and their reasons
are appended in the set's iteration order, which Python does not fix. The
method's loop picks elements with `:|`, and returns the order it took as a ghost
`order`. The specification takes the order as a parameter, and the lemmas hold
for every order that lists the set once (`Enumerates`).

The order of the "is prohibited" lines is therefore not fixed when a
description names two or more banned products (`app.py:253-256`): Python's
iteration order for a set of strings can differ between processes, so the same
input can give those lines in a different order. `OrderIndependent` shows the
reports agree up to the order of the reasons, and are identical when at most
one banned product is found.

## Model

| member | source | states |
|---|---|---|
| Compliance.CheckHsCode | app.py:199-206 | an empty HS code appends "HS code is missing."; otherwise, a code the reference store lacks appends "HS code <code> not found in records." (as `HsCodeChecks`) |
| Compliance.CheckShipper | app.py:208-214 | the stripped item name and courier are each checked for emptiness, in that order (as `ShipperChecks`) |
| Compliance.CheckDimensions | app.py:217-244 | weight, length, breadth and height (0 when absent) are each checked against `min <= v <= max`, inclusive, with min defaulting to 0 and max to unbounded (as `DimensionChecks`) |
| Compliance.CheckDeclaration | app.py:245-250 | the stripped origin, the declared value (0 when absent) and the stripped description are checked for being missing, in that order (as `DeclarationChecks`) |
| Compliance.CheckFields | app.py:197-250 | the field checks run from an empty list in the source's order (as `FieldReasons`) |
| Compliance.BannedIn | app.py:253-255 | the detected products are a subset of the banned products, chosen by case-insensitive substring match |
| Compliance.ReportBannedProducts | app.py:253-256 | whatever the iteration order, the reasons already found are kept and exactly one "<item> is prohibited." reason is appended per detected product, and no other; the order taken lists the set once |
| Compliance.EscalateByValue | app.py:281-296 | each threshold strictly exceeded appends its documents and its reason, in tier order (as `EscalatedDocuments` and `EscalationReasons`); the body asserts, on a ghost flag, that the table's list has been copied before any append |
| Compliance.CheckOriginPaperworkAndClassifier | app.py:258-310 | banned origin, category lookup, value escalation, the paperwork reason and the classifier's reason, in that order; returns the category's three requirement lists (documents escalated) |
| Compliance.CheckComplianceForPayload | app.py:192-332 | the report is `Evaluate` of the payload for the order in which the banned set was visited: normalised fields, status, rendered reasons and required paperwork; the status is "Compliant" exactly when no reason is given; the documents are the category's list escalated by the value |
| PyText.StripBlank | app.py:209-214 | a stripped field is empty exactly when the raw field is all whitespace |
| PyText.StripTrims | app.py:209-213 | `strip()` returns a slice of its input with only whitespace cut from either side |
| PyText.StripEnds | app.py:209 | `strip()` leaves no whitespace at either end |
| PyText.Lower | app.py:254 | ASCII `lower()`: keeps the length and folds each character on its own, A-Z to a-z |
| PyText.Contains | app.py:254 | `word in text` holds exactly when `word` occurs at some position of `text` |
| PyText.ContainsLowerAt | app.py:254 | a lower-case word is found in the folded text wherever the text spells it in any case |
| Compliance.NumberOrZero | app.py:229-234 | `float(x or 0)`: a present value reads as itself, and the result is 0 exactly when the value is absent or 0 |
| Tables.RequirementsExactlyForTableCategories | app.py:92-189 | the nine named categories have non-empty document, approval and certification lists; every other name, "Other" included, gets empty lists, as `.get(category, [])` at app.py:273-275 returns for a category the tables do not name |
| Reasons.ParseMessage | app.py:202-309 | every reason's text parses back to that reason |
| Reasons.MessageInjective | app.py:202-309 | two reasons have the same text exactly when they are the same reason |
| ComplianceProperties.FieldReasonsExactly | app.py:199-250 | a field reason is produced exactly when its condition holds on the raw payload |
| ComplianceProperties.LaterChecksMember | app.py:258-310 | the later checks add exactly the origin, tier, paperwork and classifier reasons whose conditions hold |
| ComplianceProperties.AllReasonsExactly | app.py:197-310 | over all checks, a reason is produced exactly when its check fails |
| ComplianceProperties.ReportedExactlyWhenRaised | app.py:197-326 | a report carries a reason's text exactly when that check fails |
| ComplianceProperties.AllReasonsDistinct | app.py:197-310 | no reason is produced twice |
| ComplianceProperties.ReportedOnceWhenRaised | app.py:197-326 | each reason's text occurs once in the report if its check fails, and not at all otherwise |
| ComplianceProperties.ReportLinesAreRaised | app.py:197-326 | every line of the report is the text of a failing check |
| ComplianceProperties.OrderIndependent | app.py:253-256 | two iteration orders of the banned set give reports equal up to the order of the reasons, and identical reports when at most one product is detected |
| Verdict.NothingRaisedExactlyWhenAllChecksPass | app.py:197-310 | no check fails exactly when every condition of `AllChecksPass` holds |
| Verdict.CompliantExactlyWhenAllChecksPass | app.py:312 | the status is "Compliant" exactly when the reasons are empty, and exactly when every check passes; a compliant shipment lists no documents, approvals or certifications |
| Verdict.ServicePaperwork | app.py:273-300 | with the service's tables, the "additional documents" reason is due exactly for Electronics, Pharmaceuticals and Machinery, or a value above 1 Lakh INR |
| Verdict.ServiceCompliantOnlyForOther | app.py:263-300 | with the service's tables, a compliant shipment is in category "Other" with a non-zero value of at most 1 Lakh INR |
| Verdict.ClassifierReasonComesLast | app.py:303-310 | a vectorization error or a prediction of 0 gives the last line of the reasons |
| Verdict.DeclaredValueMissingExactlyWhenZero | app.py:234-248 | "Declared value is missing." is reported exactly when the value is absent or 0, whatever the other fields hold |
| Verdict.ItemNameMissingExactlyWhenBlank | app.py:209-211 | "Item name is missing." is reported exactly when the item name is empty or all whitespace |
| Verdict.DimensionReportedExactly | app.py:218-244 | "<Dimension> is out of allowed range." is reported exactly when the measurement is below the lower limit (0 when absent) or above an upper limit that is present |
| Verdict.ProhibitedReportedOnce | app.py:253-256 | each detected banned product gives exactly one "<item> is prohibited." line, and no other product gives one |
| Verdict.RestrictedOriginReportedExactly | app.py:259-260 | "Import from <country> is restricted." is reported exactly for the stripped origin, when it is on the banned-country list |
| DetectionProperties.ContainsIgnoringCase | app.py:254 | searching the folded text finds a word exactly where the text spells it in any case |
| DetectionProperties.BannedInExactly | app.py:253-255 | a product is detected exactly when it is banned and the description spells it somewhere in any case |
| DetectionProperties.ElectronicsExactly | app.py:263-265 | the category is Electronics exactly when the description contains "electronics" in any case, whatever else it contains |
| DetectionProperties.PharmaceuticalsExactly | app.py:263-271 | `DetectCategory` gives Pharmaceuticals exactly when the text does not spell "electronics" but spells "medicine", "drug" or "pharmaceutical", in any case |
| DetectionProperties.MachineryExactly | app.py:263-271 | `DetectCategory` gives Machinery exactly when the text spells none of the four earlier keywords but spells "machine" or "equipment", in any case |
| DetectionProperties.OtherExactly | app.py:263-271 | `DetectCategory` gives Other exactly when the text spells none of the six keywords, in any case |
| DetectionProperties.DetectionIgnoresCase | app.py:253-271 | lower-casing the description first changes neither the category nor the banned products found |
| DetectionProperties.ElectronicsBeforeMachinery | app.py:263-269 | "Used Electronics machine" is Electronics, not Machinery |
| DetectionProperties.IvoryInUpperCase | app.py:253-255 | "IVORY" in a description is detected as the banned product "Ivory" |
| TierProperties.TiersReachedExactly | app.py:281-296 | a value reaches a tier exactly when it is strictly above the tier's threshold |
| TierProperties.TiersReachedArePrefix | app.py:281-296 | the tiers reached are always the lowest ones, in order |
| TierProperties.TiersGrowWithValue | app.py:281-296 | a larger value reaches every tier a smaller one reaches |
| TierProperties.EscalationFollowsTiers | app.py:281-296 | escalation appends one reason per tier reached and that tier's documents, tier by tier |
| Compliance.ProhibitedReasonsOfEnumeration | app.py:253-256 | the prohibited reasons of any enumeration of the detected set are one per detected product, and nothing else |
| TierProperties.EscalationExtremes | app.py:281-296 | at most 1 Lakh INR adds nothing; above 1 Crore INR adds the three tier reasons and the five documents in order |

## Left out

- The Flask routes `compliance_check`, `compliance_check_file`, `get_all_reports`
  and `suggest_items` (`app.py:335-423`) are not modelled. They are HTTP
  handling, CSV/Excel parsing, MongoDB storage and a regex database query.
- The file route evaluates all rows inside one `try` (`app.py:374-384`), so one
  failing row aborts the whole file. The file route is not modelled.
- The MongoDB HS-code lookup is the parameter `hsFound`. The pickled TF-IDF
  vectorizer and classifier are the parameter `ClassifierOutcome`. Loading the
  baseline limits from Excel is replaced by the `limits` parameter.
- The report's `timestamp` (`app.py:330`) is left out of `Report`. It reads the
  clock.
- Numbers are exact reals. Python's `float()` parsing of strings, IEEE rounding,
  NaN and infinities are not modelled. An absent upper limit is `None` rather
  than `float("inf")`. An absent, `None`, `0` or `""` number is `None`.
- Payload text fields are strings. Non-string values, for which `.strip()`
  raises, are not modelled. An absent text field reads as "".
- The HS code is never stripped. A non-string `hscode` is not modelled: a JSON
  `null` reads as "HS code is missing." and is echoed as null
  (`app.py:200-202`, `app.py:315`); a numeric 0 is falsy and also reads as
  "HS code is missing." (`app.py:201-202`); a non-zero number is looked up
  and echoed as it is (`app.py:204-206`).
- PyText.Lower: folds only ASCII A-Z. Python's `str.lower()` also maps
  non-ASCII characters, and need not keep the length: U+0130 becomes 'i'
  followed by U+0307. One such mapping can change a verdict: U+212A KELVIN SIGN
  lowers to ASCII 'k', so a description such as `"Tiger S\u212Ain"`,
  `"Sna\u212Ae Venom"` or `"Peacoc\u212A Feathers"` (Python escapes) is
  flagged as prohibited by `app.py:254` and not by the model.
- The requirement tables are a parameter of the evaluator rather than globals.
  The service's constants are `Tables.ServiceRequirements`.
