/** The schema tables of embed-config.js: for every key, either the text to embed
    or the key whose embedding it borrows (`defer`), and for two value keys a
    filter applied to the extracted cell text. */
module Schema {
  import opened Wrappers
  import opened Tables
  import opened Text

  /** The two `filter` functions of `propertyValues`. */
  datatype FilterKind = PlanTypeKind | ProviderNameKind

  /** `{embed?, defer?, filter?}` */
  datatype Entry = Entry(embed: Option<string>, defer: Option<string>, filter: Option<FilterKind>)

  function Embeds(text: string): Entry { Entry(Some(text), None, None) }
  function Defers(target: string): Entry { Entry(None, Some(target), None) }
  function Filtered(text: string, kind: FilterKind): Entry { Entry(Some(text), None, Some(kind)) }

  const CostOrCoverage := "_CostOrCoverage"
  const PlanTypeKey := "Details.PlanType"
  const ProviderNameKey := "ProviderName"
  const TierCountKey := "Details.InNetworkPrescriptionDrugs.PrescriptionDrugTier"
  const UrgentCareKey := "Details.InNetworkProfessionalServices.UrgentCare"

  const PropertyChains: Table<Entry> := [
    (PlanTypeKey, Embeds("insurance plan type")),
    (ProviderNameKey, Embeds("carrier or provider")),
    (UrgentCareKey, Embeds("urgent care")),
    ("Details.InNetworkProfessionalServices.MentalHealthOutpatient", Embeds("mental health")),
    ("Details.InNetworkProfessionalServices.PreventativeCare", Embeds("preventative care")),
    ("Details.InNetworkProfessionalServices.InPatientHospital", Embeds("in patient hospital")),
    ("Details.InNetworkProfessionalServices.Baby", Embeds("baby service")),
    ("Details.InNetworkProfessionalServices.VirtualPrimary", Embeds("virtual primary")),
    ("Details.InNetworkProfessionalServices.PrimaryCarePhysician", Embeds("primary care physician")),
    ("Details.InNetworkPlanDesign.Coinsurance", Embeds("in network coinsurance")),
    (TierCountKey, Embeds("rx tier count")),
    ("Details.InNetworkPrescriptionDrugs.Tier1", Embeds("rx tier 1")),
    ("Details.InNetworkPrescriptionDrugs.Tier2", Embeds("rx tier 2")),
    ("Details.InNetworkPrescriptionDrugs.Tier3", Embeds("rx tier 3")),
    ("Details.InNetworkPrescriptionDrugs.Tier4", Embeds("rx tier 4")),
    ("Details.InNetworkPrescriptionDrugs.Tier5", Embeds("rx tier 5")),
    ("Details.InNetworkPrescriptionDrugs.Tier6", Embeds("rx tier 6"))
  ]

  const TierCountText := "Does this text describe the total number of prescription drug tiers (e.g. \U{201C}3 tiers\U{201D}, \U{201C}four tiers\U{201D})?"

  const PropertyValues: Table<Entry> := [
    (CostOrCoverage, Embeds("Does this text describe a cost value")),
    (PlanTypeKey, Filtered("Does the text include 'hmo' or 'ppo' or 'epo' or 'hdhp'?", PlanTypeKind)),
    (ProviderNameKey, Filtered("insurance carrier or provider", ProviderNameKind)),
    (UrgentCareKey, Defers(CostOrCoverage)),
    ("Details.InNetworkProfessionalServices.MentalHealthOutpatient", Defers(CostOrCoverage)),
    ("Details.InNetworkProfessionalServices.PreventativeCare", Defers(CostOrCoverage)),
    ("Details.InNetworkProfessionalServices.InPatientHospital", Defers(CostOrCoverage)),
    ("Details.InNetworkProfessionalServices.Baby", Defers(CostOrCoverage)),
    ("Details.InNetworkProfessionalServices.VirtualPrimary", Defers(CostOrCoverage)),
    ("Details.InNetworkProfessionalServices.PrimaryCarePhysician", Defers(CostOrCoverage)),
    ("Details.InNetworkPlanDesign.Coinsurance", Defers(CostOrCoverage)),
    (TierCountKey, Embeds(TierCountText)),
    ("Details.InNetworkPrescriptionDrugs.Tier1", Defers(CostOrCoverage)),
    ("Details.InNetworkPrescriptionDrugs.Tier2", Defers(CostOrCoverage)),
    ("Details.InNetworkPrescriptionDrugs.Tier3", Defers(CostOrCoverage)),
    ("Details.InNetworkPrescriptionDrugs.Tier4", Defers(CostOrCoverage)),
    ("Details.InNetworkPrescriptionDrugs.Tier5", Defers(CostOrCoverage)),
    ("Details.InNetworkPrescriptionDrugs.Tier6", Defers(CostOrCoverage))
  ]

  const RenewalText := "Label for items representing the renewal of an existing plan or policy"

  const Utilities: Table<Entry> := [
    ("inNetwork", Embeds("In Network")),
    ("outOfNetwork", Embeds("Out of Network")),
    ("renewal", Embeds(RenewalText)),
    ("current", Embeds("Label for items representing a plan or policy that is active and in effect"))
  ]

  // ---------------------------------------------------------------------------
  // Filters

  const PlanTypes: set<string> := {"HMO", "PPO", "EPO", "HDHP", "-"}

  /** The PlanType filter: the first of HMO, PPO, EPO, HDHP found in the
      upper-cased text, else "-". */
  function PlanTypeFilter(value: string): (r: string)
    ensures r in PlanTypes
  {
    var upper := Upper(value);
    if Contains(upper, "HMO") then "HMO"
    else if Contains(upper, "PPO") then "PPO"
    else if Contains(upper, "EPO") then "EPO"
    else if Contains(upper, "HDHP") then "HDHP"
    else "-"
  }

  /** The ProviderName filter: "-" for a text that mentions NAME in any case,
      otherwise the text itself, not upper-cased. */
  function ProviderNameFilter(value: string): (r: string)
    ensures r == value || r == "-"
  {
    if Contains(Upper(value), "NAME") then "-" else value
  }

  function ApplyFilter(kind: FilterKind, value: string): string
  {
    match kind
    case PlanTypeKind => PlanTypeFilter(value)
    case ProviderNameKind => ProviderNameFilter(value)
  }

  /** The tests run in the fixed order HMO, PPO, EPO, HDHP and the first hit wins. */
  lemma {:induction false} PlanTypeOrder(value: string)
    ensures var u, r := Upper(value), PlanTypeFilter(value);
      && (r == "HMO" <==> Contains(u, "HMO"))
      && (r == "PPO" <==> !Contains(u, "HMO") && Contains(u, "PPO"))
      && (r == "EPO" <==> !Contains(u, "HMO") && !Contains(u, "PPO") && Contains(u, "EPO"))
      && (r == "HDHP" <==> !Contains(u, "HMO") && !Contains(u, "PPO") && !Contains(u, "EPO") && Contains(u, "HDHP"))
      && (r == "-" <==> !Contains(u, "HMO") && !Contains(u, "PPO") && !Contains(u, "EPO") && !Contains(u, "HDHP"))
  {
  }

  /** Upper-casing the input first changes nothing. */
  lemma {:induction false} PlanTypeCaseInsensitive(value: string)
    ensures PlanTypeFilter(Upper(value)) == PlanTypeFilter(value)
  {
    UpperIdempotent(value);
  }

  lemma {:induction false} ContainsSelf(s: string)
    ensures Contains(s, s)
  {
    assert s[..|s|] == s;
  }

  /** `s` does not occur in `t` when it is longer than `t`. */
  lemma {:induction false} ContainsShorter(s: string, t: string)
    requires |s| < |t|
    ensures !Contains(s, t)
    decreases |s|
  {
    if |s| > 0 {
      ContainsShorter(s[1..], t);
    }
  }

  lemma {:induction false} NotStartsWith(s: string, prefix: string, i: nat)
    requires i < |prefix| <= |s| && s[i] != prefix[i]
    ensures !StartsWith(s, prefix)
  {
    assert s[..|prefix|][i] == s[i];
  }

  /** Every filter output is a fixed point of the filter. */
  lemma {:induction false} PlanTypeIdempotent(value: string)
    ensures PlanTypeFilter(PlanTypeFilter(value)) == PlanTypeFilter(value)
  {
    var r := PlanTypeFilter(value);
    assert Upper(r) == r;
    ContainsSelf(r);
    if r == "-" {
      ContainsShorter("-", "HMO");
      ContainsShorter("-", "PPO");
      ContainsShorter("-", "EPO");
      ContainsShorter("-", "HDHP");
    } else if r == "PPO" {
      assert !Contains("PPO", "HMO") by {
        assert !StartsWith("PPO", "HMO");
        ContainsShorter("PO", "HMO");
      }
    } else if r == "EPO" {
      assert !Contains("EPO", "HMO") by {
        assert !StartsWith("EPO", "HMO");
        ContainsShorter("PO", "HMO");
      }
      assert !Contains("EPO", "PPO") by {
        assert !StartsWith("EPO", "PPO");
        ContainsShorter("PO", "PPO");
      }
    } else if r == "HDHP" {
      assert !Contains("HDHP", "HMO") by {
        NotStartsWith("HDHP", "HMO", 1);
        NotStartsWith("DHP", "HMO", 0);
        ContainsShorter("HP", "HMO");
      }
      assert !Contains("HDHP", "PPO") by {
        assert !StartsWith("HDHP", "PPO");
        assert !StartsWith("DHP", "PPO");
        ContainsShorter("HP", "PPO");
      }
      assert !Contains("HDHP", "EPO") by {
        assert !StartsWith("HDHP", "EPO");
        assert !StartsWith("DHP", "EPO");
        ContainsShorter("HP", "EPO");
      }
    }
  }

  /** The ProviderName filter keeps a text without NAME verbatim and blanks one with it. */
  lemma {:induction false} ProviderNameExamples()
    ensures ProviderNameFilter("Aetna") == "Aetna"
    ensures ProviderNameFilter("Plan name") == "-"
  {
    assert Upper("Aetna") == "AETNA";
    assert !Contains("AETNA", "NAME") by {
      NotStartsWith("AETNA", "NAME", 0);
      NotStartsWith("ETNA", "NAME", 0);
      ContainsShorter("TNA", "NAME");
    }
    var u := Upper("Plan name");
    assert u == "PLAN NAME";
    ContainsSelf("NAME");
    assert u[5..] == "NAME";
    assert Contains(u[4..], "NAME") by { assert u[4..][1..] == u[5..]; }
    assert Contains(u[3..], "NAME") by { assert u[3..][1..] == u[4..]; }
    assert Contains(u[2..], "NAME") by { assert u[2..][1..] == u[3..]; }
    assert Contains(u[1..], "NAME") by { assert u[1..][1..] == u[2..]; }
  }

  // ---------------------------------------------------------------------------
  // Structure of the shipped tables

  /** Exactly one of `embed` and `defer` in every entry. */
  predicate WellFormed(t: Table<Entry>)
  {
    forall i :: 0 <= i < |t| ==> (t[i].1.embed.Some? <==> t[i].1.defer.None?)
  }

  /** Every `defer` names an entry of the same table that embeds directly. */
  predicate DefersResolve(t: Table<Entry>)
  {
    forall i :: 0 <= i < |t| && t[i].1.defer.Some? ==>
      var target := Get(t, t[i].1.defer.value);
      target.Some? && target.value.defer.None? && target.value.embed.Some?
  }

  lemma {:induction false} TablesWellFormed()
    ensures WellFormed(PropertyChains) && WellFormed(PropertyValues) && WellFormed(Utilities)
  {
  }

  /** Every `defer` of `propertyValues` names `_CostOrCoverage`, the first entry,
      which embeds its own text: alias chains have length one. */
  lemma {:induction false} ValueDefersTargetCost()
    ensures forall i :: 0 <= i < |PropertyValues| && PropertyValues[i].1.defer.Some? ==>
      PropertyValues[i].1.defer.value == CostOrCoverage
    ensures Get(PropertyValues, CostOrCoverage) == Some(Embeds("Does this text describe a cost value"))
  {
  }

  lemma {:induction false} ValuesDefersResolve()
    ensures DefersResolve(PropertyValues)
  {
    ValueDefersTargetCost();
    var target := Get(PropertyValues, CostOrCoverage);
    forall i | 0 <= i < |PropertyValues| && PropertyValues[i].1.defer.Some?
      ensures Get(PropertyValues, PropertyValues[i].1.defer.value) == target
    {
      assert PropertyValues[i].1.defer.value == CostOrCoverage;
    }
  }

  lemma {:induction false} ChainsUtilitiesDeferNothing()
    ensures forall i :: 0 <= i < |PropertyChains| ==> PropertyChains[i].1.defer.None?
    ensures forall i :: 0 <= i < |Utilities| ==> Utilities[i].1.defer.None?
  {
  }

  lemma {:induction false} TablesDefersResolve()
    ensures DefersResolve(PropertyValues) && DefersResolve(PropertyChains) && DefersResolve(Utilities)
  {
    ValuesDefersResolve();
    ChainsUtilitiesDeferNothing();
  }

  /** Every key of `propertyChains` is also a key of `propertyValues` (the one
      after it in the listing order). */
  lemma {:induction false} ChainKeysAligned()
    ensures |PropertyValues| == |PropertyChains| + 1
    ensures forall i :: 0 <= i < |PropertyChains| ==> PropertyChains[i].0 == PropertyValues[i + 1].0
  {
  }

  /** `_CostOrCoverage` is no key of `propertyChains`. */
  lemma {:induction false} CostNotChained()
    ensures forall i :: 0 <= i < |PropertyChains| ==> PropertyChains[i].0 != CostOrCoverage
  {
  }

  lemma {:induction false} ChainKeysHaveValues()
    ensures KeySet(PropertyChains) <= KeySet(PropertyValues)
  {
    ChainKeysAligned();
    KeysWithin(PropertyChains, PropertyValues, 1);
  }

  lemma {:induction false} RenewalEmbeds()
    ensures Get(Utilities, "renewal") == Some(Embeds(RenewalText))
  {
    UtilitiesUniqueKeys();
    GetUnique(Utilities, 2);
  }

  lemma {:induction false} ChainsUniqueKeys()
    ensures UniqueKeys(PropertyChains)
  {
  }

  /** `propertyValues` lists `_CostOrCoverage` and then the keys of `propertyChains`. */
  lemma {:induction false} ValuesUniqueKeys()
    ensures UniqueKeys(PropertyValues)
  {
    ChainsUniqueKeys();
    ChainKeysAligned();
    CostNotChained();
    forall i | 0 < i < |PropertyValues| ensures PropertyValues[0].0 != PropertyValues[i].0 {
      assert PropertyValues[i].0 == PropertyChains[i - 1].0;
    }
    UniqueAfterFirst(PropertyChains, PropertyValues);
  }

  lemma {:induction false} UtilitiesUniqueKeys()
    ensures UniqueKeys(Utilities)
  {
  }

  lemma {:induction false} TablesUniqueKeys()
    ensures UniqueKeys(PropertyChains) && UniqueKeys(PropertyValues) && UniqueKeys(Utilities)
  {
    ChainsUniqueKeys();
    ValuesUniqueKeys();
    UtilitiesUniqueKeys();
  }
}
