/** Identifiers and the traits of their types (types/identifier.go and types/trait.go). */
module Identifiers {

  /** A type, spelled as the database spells it, a domain, empty where the type has none, and a value. */
  datatype Identifier = Identifier(kind: string, domain: string, value: string)

  datatype Domain = NoDomain | GlobalDomain | VenueDomain | IssuerDomain
  datatype Grain = NoGrain | InstrGrain | ListingGrain
  datatype Reassignment = NoReassignment | Stable | MicDerived | Unverifiable

  datatype Trait = Trait(domain: Domain, grain: Grain, reassignment: Reassignment, exclusive: bool)

  /** The traits of a type; a type outside the vocabulary has none. */
  function TraitOf(kind: string): Trait {
    if kind in {"isin", "cusip", "cins", "wertpapier", "openfigi_share_class", "currency"} then
      Trait(GlobalDomain, InstrGrain, Stable, true)
    else if kind == "sedol" then Trait(GlobalDomain, ListingGrain, Stable, true)
    else if kind == "openfigi_composite" then Trait(GlobalDomain, ListingGrain, Stable, false)
    else if kind == "mic_ticker" then Trait(VenueDomain, ListingGrain, MicDerived, true)
    else if kind in {"occ", "option"} then Trait(GlobalDomain, InstrGrain, MicDerived, true)
    else if kind == "datasource_ticker" then Trait(IssuerDomain, ListingGrain, MicDerived, true)
    else if kind == "broker_id" then Trait(IssuerDomain, InstrGrain, Stable, true)
    else if kind == "broker_description" then Trait(IssuerDomain, InstrGrain, Unverifiable, false)
    else Trait(NoDomain, NoGrain, NoReassignment, false)
  }

  predicate Joining(i: Identifier) {
    TraitOf(i.kind).domain == GlobalDomain || i.domain != ""
  }

  predicate NamesInstr(i: Identifier) {
    TraitOf(i.kind).grain == InstrGrain
  }

  predicate NamesListing(i: Identifier) {
    TraitOf(i.kind).grain == ListingGrain
  }

  predicate Exclusive(i: Identifier) {
    TraitOf(i.kind).exclusive
  }

  predicate IsStable(i: Identifier) {
    TraitOf(i.kind).reassignment == Stable
  }

  predicate IsGlobal(i: Identifier) {
    match TraitOf(i.kind).domain
    case GlobalDomain => true
    case VenueDomain => i.domain != ""
    case _ => false
  }

  // ----- The types by what they do -----

  const EXCLUSIVE: set<string> := {
    "isin", "cusip", "cins", "wertpapier", "openfigi_share_class", "sedol", "mic_ticker", "occ", "currency", "datasource_ticker",
    "broker_id", "option"
  }

  const STABLE: set<string> := {
    "isin", "cusip", "cins", "wertpapier", "openfigi_share_class", "sedol", "openfigi_composite", "currency", "broker_id"
  }

  const OF_LISTINGS: set<string> := {"sedol", "openfigi_composite", "mic_ticker", "datasource_ticker"}

  const OF_INSTRUMENTS: set<string> := {
    "isin", "cusip", "cins", "wertpapier", "openfigi_share_class", "occ", "currency", "broker_id", "broker_description", "option"
  }

  const WORLDWIDE: set<string> := {
    "isin", "cusip", "cins", "wertpapier", "openfigi_share_class", "sedol", "openfigi_composite", "occ", "currency", "option"
  }

  /** What each type of identifier names, and how firmly. */
  lemma TypesAre(id: Identifier)
    ensures Exclusive(id) <==> id.kind in EXCLUSIVE
    ensures IsStable(id) <==> id.kind in STABLE
    ensures NamesListing(id) <==> id.kind in OF_LISTINGS
    ensures NamesInstr(id) <==> id.kind in OF_INSTRUMENTS
    ensures IsGlobal(id) <==> id.kind in WORLDWIDE || (id.kind == "mic_ticker" && id.domain != "")
    ensures Joining(id) <==> id.kind in WORLDWIDE || id.domain != ""
  {
  }
}
