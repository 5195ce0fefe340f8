/** The static tables of the semantic namespace mapper
    (semantic_namespace_mapper.py), in the order the source lists them. */
module NamespaceTables {
  import opened Text

  /** A dict from names to lists of names, in insertion order. */
  type Table = seq<(String, seq<String>)>

  /** `semantic_to_actual`: each semantic name and the index namespaces it stands for. */
  const SemanticToActual: Table := [
    ("electric-vehicles-policy", ["ev_policy_document", "ev_policy_section", "ev_policy_clause", "ev_policy_fact"]),
    ("electric-vehicles-guidelines", ["ev_policy_document", "ev_policy_section"]),
    ("ev-incentives", ["ev_policy_fact", "ev_policy_clause", "ev_policy_section"]),
    ("ev-targets", ["ev_policy_fact", "ev_policy_clause"]),
    ("ev-adoption", ["ev_policy_fact", "ev_policy_clause"]),
    ("industrial-policy-2015", ["industrial_policy_document", "industrial_policy_section", "industrial_policy_clause", "industrial_policy_fact"]),
    ("industrial-guidelines", ["industrial_policy_document", "industrial_policy_section"]),
    ("industrial-fees", ["industrial_policy_fact", "industrial_policy_clause"]),
    ("ease-of-business", ["industrial_policy_section", "industrial_policy_clause"]),
    ("building-plan-approval", ["industrial_policy_fact", "industrial_policy_clause"]),
    ("industrial-area", ["industrial_policy_fact", "industrial_policy_clause"]),
    ("excise-policy", ["excise_policy_document", "excise_policy_section", "excise_policy_clause", "excise_policy_fact"]),
    ("liquor-licenses", ["excise_policy_fact", "excise_policy_clause", "excise_policy_section"]),
    ("license-fees", ["excise_policy_fact", "excise_policy_clause"]),
    ("microbrewery", ["excise_policy_fact", "excise_policy_clause"]),
    ("participation-fee", ["excise_policy_fact", "excise_policy_clause"]),
    ("departmental-store", ["excise_policy_fact", "excise_policy_clause"]),
    ("bar-licenses", ["excise_policy_fact", "excise_policy_clause"]),
    ("l-10c", ["excise_policy_fact", "excise_policy_clause"]),
    ("l-10b", ["excise_policy_fact", "excise_policy_clause"]),
    ("excise-license", ["excise_policy_fact", "excise_policy_clause"]),
    ("bidding", ["excise_policy_fact", "excise_policy_clause"]),
    ("parking-policy", ["parking_policy_document", "parking_policy_section", "parking_policy_clause", "parking_policy_fact"]),
    ("parking-regulations", ["parking_policy_section", "parking_policy_clause"]),
    ("parking-fees", ["parking_policy_fact", "parking_policy_clause"]),
    ("population-statistics", ["parking_policy_fact", "parking_policy_clause"]),
    ("vehicle-statistics", ["parking_policy_fact", "parking_policy_clause"]),
    ("census", ["parking_policy_fact", "parking_policy_clause"]),
    ("data-sharing-policy", ["data_policy_document", "data_policy_section", "data_policy_clause", "data_policy_fact"]),
    ("data-access", ["data_policy_section", "data_policy_clause"]),
    ("data-accessibility", ["data_policy_section", "data_policy_clause"]),
    ("cd-waste-policy", ["cd_waste_policy_document", "cd_waste_policy_section", "cd_waste_policy_clause", "cd_waste_policy_fact"]),
    ("waste-management", ["cd_waste_policy_section", "cd_waste_policy_clause"]),
    ("construction-demolition", ["cd_waste_policy_fact", "cd_waste_policy_clause"]),
    ("it-policy", ["it_policy_document", "it_policy_section", "it_policy_clause", "it_policy_fact"]),
    ("it-guidelines", ["it_policy_section", "it_policy_clause"]),
    ("ites-policy", ["it_policy_document", "it_policy_section", "it_policy_clause", "it_policy_fact"]),
    ("technology-park", ["it_policy_fact", "it_policy_clause"]),
    ("rgctp", ["it_policy_fact", "it_policy_clause"]),
    ("it-disposal", ["general_policy_fact", "general_policy_clause"]),
    ("obsolete-equipment", ["general_policy_fact", "general_policy_clause"]),
    ("general-policy", ["general_policy_document", "general_policy_section", "general_policy_clause", "general_policy_fact"]),
    ("sez-policy", ["general_policy_document", "general_policy_section", "general_policy_clause"]),
    ("fees-charges", ["excise_policy_fact", "industrial_policy_fact", "parking_policy_fact", "ev_policy_fact"]),
    ("license-requirements", ["excise_policy_fact", "industrial_policy_fact", "excise_policy_clause", "industrial_policy_clause"]),
    ("time-limits", ["industrial_policy_fact", "excise_policy_fact", "parking_policy_fact"]),
    ("area-requirements", ["industrial_policy_fact", "excise_policy_fact", "parking_policy_fact"]),
    ("application-process", ["industrial_policy_fact", "excise_policy_fact", "industrial_policy_clause", "excise_policy_clause"]),
    ("eligibility-criteria", ["ev_policy_fact", "industrial_policy_fact", "excise_policy_fact"])
  ]

  /** `namespace_keywords`: the routing keywords of each semantic name. Its key set
      differs from that of `SemanticToActual`. */
  const NamespaceKeywords: Table := [
    ("electric-vehicles-policy", ["electric", "vehicle", "ev", "charging", "battery", "motor", "transport", "e-vehicle", "electric car", "electric transport", "green vehicle", "clean energy", "sustainable transport", "emission", "eco-friendly", "incentive", "subsidy", "registration", "infrastructure", "station", "point", "renewable"]),
    ("electric-vehicles-guidelines", ["electric", "vehicle", "ev", "guidelines", "procedures", "implementation", "infrastructure", "charging", "registration", "incentive"]),
    ("industrial-policy-2015", ["industry", "industrial", "manufacturing", "msme", "factory", "production", "business", "enterprise", "sector", "development", "investment", "infrastructure", "small scale", "medium scale", "micro enterprise", "startup", "policy", "growth", "promotion", "incentive", "subsidy", "support", "license", "permit", "registration", "clearance", "ease", "doing", "business", "facilitation"]),
    ("industrial-development-policy", ["industry", "industrial", "development", "promotion", "investment", "manufacturing", "enterprise", "business", "policy", "growth", "infrastructure"]),
    ("excise-policy", ["excise", "tax", "duty", "revenue", "alcohol", "license", "taxation", "fee", "charges", "rates", "collection", "assessment", "payment", "liquor", "wine", "beer", "spirit", "brewery", "distillery", "wholesale", "retail", "permit", "registration", "renewal", "compliance", "microbrewery", "micro", "l-10c", "l10c", "participation", "bidding", "departmental", "store"]),
    ("liquor-licenses", ["liquor", "license", "permit", "alcohol", "excise", "registration", "renewal", "fee", "charges", "compliance", "application", "microbrewery", "l-10c"]),
    ("license-fees", ["license", "fee", "fees", "charges", "cost", "amount", "payment", "deposit", "microbrewery", "l-10c", "participation", "bidding"]),
    ("microbrewery", ["microbrewery", "micro", "brewery", "l-10c", "l10c", "beer", "brewing", "license", "fee", "10.00", "lac", "lakh"]),
    ("participation-fee", ["participation", "fee", "bidding", "tender", "auction", "2,00,000", "2 lac", "2 lakh", "earnest", "money"]),
    ("parking-policy", ["parking", "vehicle", "car", "transport", "space", "urban", "management", "slot", "zone", "fee", "regulation", "traffic", "mobility", "city planning", "meter", "charges", "violation", "penalty", "enforcement", "reserved", "commercial", "residential", "public", "private", "population", "census", "10.54", "lakh", "lac", "statistics"]),
    ("parking-regulations", ["parking", "regulation", "rule", "violation", "penalty", "enforcement", "fee", "charges", "zone", "restriction"]),
    ("population-statistics", ["population", "census", "statistics", "10.54", "lakh", "lac", "demographic", "people", "residents", "city", "urban"]),
    ("data-sharing-policy", ["data", "sharing", "accessibility", "information", "public", "government", "transparency", "citizen", "access", "privacy", "security", "digital", "platform", "portal", "database", "record", "document", "disclosure", "confidential", "classification", "protection"]),
    ("data-accessibility-guidelines", ["data", "accessibility", "access", "public", "citizen", "information", "transparency", "sharing", "guidelines", "procedure"]),
    ("information-technology-policy", ["it", "information", "technology", "software", "digital", "computer", "tech", "automation", "system", "data", "cyber", "electronic", "digitization", "e-governance", "ites", "service", "export", "outsourcing", "bpo", "call center", "data processing", "software development", "tech services", "digital services", "disposal", "equipment", "hardware"]),
    ("it-enabled-services-policy", ["ites", "it enabled", "services", "outsourcing", "bpo", "call center", "data processing", "software development", "tech services", "export"]),
    ("data-disposal-guidelines", ["disposal", "it disposal", "equipment", "hardware", "electronic", "waste", "recycling", "destruction", "security", "data"]),
    ("special-economic-zones-policy", ["sez", "zone", "economic", "special", "export", "business", "tax", "economic zone", "industrial zone", "free trade", "customs", "duty free", "investment", "manufacturing hub", "export promotion", "industry", "industries", "developer", "unit", "infrastructure", "facility", "exemption"]),
    ("sez-regulations", ["sez", "special economic zone", "regulation", "rule", "compliance", "developer", "unit", "export", "duty free"]),
    ("construction-demolition-waste", ["construction", "demolition", "waste", "debris", "material", "recycling", "disposal", "management", "building", "concrete", "rubble", "brick", "steel", "wood", "processing", "facility", "segregation", "collection"]),
    ("waste-management-policy", ["waste", "management", "disposal", "recycling", "collection", "treatment", "segregation", "processing", "facility"]),
    ("general-policies", ["policy", "general", "administration", "governance", "public", "government", "regulation", "guideline", "procedure", "rule", "law", "citizen", "service", "implementation", "compliance", "authority", "department"]),
    ("all-policies", ["policy", "policies", "all", "comprehensive", "complete", "overview", "summary", "general", "multiple", "various", "different", "cross"])
  ]

  /** The category groups of `get_namespace_info`. */
  const Categories: Table := [
    ("Electric Vehicles", ["electric-vehicles-policy", "electric-vehicles-guidelines"]),
    ("Industrial Policy", ["industrial-policy-2015", "industrial-development-policy"]),
    ("Waste Management", ["construction-demolition-waste", "waste-management-policy"]),
    ("Urban Development", ["parking-management-policy"]),
    ("Taxation", ["excise-taxation-policy"]),
    ("Information Technology", ["information-technology-policy", "it-enabled-services-policy", "data-sharing-policy"]),
    ("Special Economic Zones", ["special-economic-zones-policy"]),
    ("General Policies", ["general-policies"])
  ]
}
