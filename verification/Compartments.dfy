/** Network compartments, as filters and programs name them. */
module Compartments {

  /** The wildcard: a filter or client for every compartment. */
  const UNSPECIFIED_COMPARTMENT_ID: nat := 0

  predicate Covers(filter: nat, compartment: nat) {
    filter == UNSPECIFIED_COMPARTMENT_ID || filter == compartment
  }
}
