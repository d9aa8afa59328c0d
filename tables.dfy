/**
 * The reference data the evaluator consults: the banned products and origin
 * countries, and the per-category lists of required documents, approvals and
 * certifications. All of them are constants; nothing at run time changes them.
 */
module Tables {

  /** Product names that may not be imported; matched case-insensitively as
      substrings of the product description. */
  const BannedProducts: set<string> := {
    "Tiger Skin",
    "Ivory",
    "Snake Venom",
    "Peacock Feathers",
    "Opium",
    "Cocaine",
    "Heroin",
    "Red Sandalwood",
    "Indian Currency (in bulk)",
    "Certain E-waste",
    "Antiques over 100 years old",
    "Organs",
    "Tissues",
    "Blood",
    "Bones",
    "Methylamine",
    "Red Phosphorus",
    "Acetic Anhydride",
    "Old laptops",
    "batteries"
  }

  /** Origin countries from which imports are restricted (exact match). */
  const BannedCountries: set<string> := {"North Korea", "Pakistan", "Iran", "China"}

  /** The nine categories that have entries in each requirement table. */
  const TableCategories: set<string> := {
    "Electronics", "Pharmaceuticals", "Machinery", "Automotive", "Construction",
    "Food & Beverage", "Energy & Utilities", "Medical Devices", "Textiles & Apparel"
  }

  const RequiredDocuments: map<string, seq<string>> := map[
    "Electronics" := ["Technical Specifications", "User Manual", "RoHS Compliance Document"],
    "Pharmaceuticals" := ["FDA Approval", "Clinical Trial Results", "Product Safety Data Sheet (SDS)"],
    "Machinery" := ["Safety Certificate", "Inspection Report", "CE Declaration of Conformity"],
    "Automotive" := ["Emission Test Report", "Vehicle Safety Inspection Report"],
    "Construction" := ["Building Permit", "Environmental Impact Assessment"],
    "Food & Beverage" := ["Health Safety Certification", "FDA Food Facility Registration"],
    "Energy & Utilities" := ["Energy Efficiency Report", "Environmental Compliance Certificate"],
    "Medical Devices" := ["ISO 13485 Compliance Report", "Product Registration Certificate"],
    "Textiles & Apparel" := ["Chemical Safety Report", "Material Compliance Certificate"]
  ]

  const RequiredApprovals: map<string, seq<string>> := map[
    "Electronics" := ["FCC Approval", "CE Marking Approval"],
    "Pharmaceuticals" := ["FDA Drug Approval", "EMA (European Medicines Agency) Approval"],
    "Machinery" := ["OSHA Safety Approval", "EPA Emissions Compliance"],
    "Automotive" := [
      "NHTSA (National Highway Traffic Safety Administration) Approval",
      "DOT (Department of Transportation) Approval"],
    "Construction" := ["Local Government Building Permit Approval", "Fire Safety Compliance Approval"],
    "Food & Beverage" := [
      "USDA (United States Department of Agriculture) Approval",
      "FDA Labeling Compliance Approval"],
    "Energy & Utilities" := [
      "Federal Energy Regulatory Commission (FERC) Approval",
      "EPA Environmental Compliance Approval"],
    "Medical Devices" := ["FDA 510(k) Clearance", "EU MDR (Medical Device Regulation) Approval"],
    "Textiles & Apparel" := ["Oeko-Tex Certification Approval", "REACH Compliance Approval"]
  ]

  const RequiredCertifications: map<string, seq<string>> := map[
    "Electronics" := ["ISO 9001 (Quality Management)", "UL (Underwriters Laboratories) Certification"],
    "Pharmaceuticals" := ["GMP (Good Manufacturing Practices)", "ISO 22716 (Cosmetic GMP)"],
    "Machinery" := ["ISO 45001 (Occupational Health & Safety)", "CE (Conformité Européenne) Certification"],
    "Automotive" := ["ISO 26262 (Functional Safety)", "SAE J3061 (Cybersecurity)"],
    "Construction" := [
      "LEED (Leadership in Energy & Environmental Design) Certification",
      "ISO 14001 (Environmental Management)"],
    "Food & Beverage" := [
      "HACCP (Hazard Analysis and Critical Control Points)",
      "ISO 22000 (Food Safety)"],
    "Energy & Utilities" := ["ISO 50001 (Energy Management)", "LEED Certification"],
    "Medical Devices" := [
      "ISO 13485 (Medical Device Quality)",
      "FDA cGMP (Current Good Manufacturing Practice)"],
    "Textiles & Apparel" := ["GOTS (Global Organic Textile Standard)", "Fair Trade Certification"]
  ]

  /** The three requirement tables, as the evaluator consults them. */
  datatype Requirements = Requirements(
    documents: map<string, seq<string>>,
    approvals: map<string, seq<string>>,
    certifications: map<string, seq<string>>)

  /** The tables the service evaluates shipments against. */
  const ServiceRequirements: Requirements :=
    Requirements(RequiredDocuments, RequiredApprovals, RequiredCertifications)

  /** Python's `table.get(category, [])`: the category's list, or the empty list
      for a category the table does not name. */
  function Lookup(table: map<string, seq<string>>, category: string): (r: seq<string>)
  {
    if category in table then table[category] else []
  }

  /** A category outside the nine named ones has no requirements at all, and each
      of the nine has at least one document, one approval and one certification. */
  lemma RequirementsExactlyForTableCategories(c: string)
    ensures c !in TableCategories ==>
      Lookup(RequiredDocuments, c) == [] && Lookup(RequiredApprovals, c) == [] && Lookup(RequiredCertifications, c) == []
    ensures c in TableCategories ==>
      Lookup(RequiredDocuments, c) != [] && Lookup(RequiredApprovals, c) != [] && Lookup(RequiredCertifications, c) != []
  {
  }
}
