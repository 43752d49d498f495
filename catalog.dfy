/**
 The fixed parameter catalog of the dashboard: the eleven monitored
 parameters in the order the selection control lists them, and the
 regulatory safe limit of each. Labels are kept exactly as the program
 spells them, including "Dissloved" and "Phosephate".
 */
module Catalog {
  import opened Wrappers
  import opened Seqs

  /** The `parameters` list. */
  const Parameters: seq<string> := [
    "2. Total Dissolved Solid (mg/L)",
    "3. Total Suspended Solid (mg/L)",
    "6. Chemical Oxygen Demand (mg/L)",
    "7. Biochemical Oxygen Demand (mg/L)",
    "8. Dissloved Oxygen (mg/L)",
    "9. Sulphate (mg/L)",
    "11. Nitrate (mg/L)",
    "13. Ammonia (mg/L)",
    "15. Total Phosephate (mg/L)",
    "34. Fecal Coliform (MPN/100 ML)",
    "35. Total Coliform (MPN/100 ML)"
  ]

  /** The `safe_limits` table; Python's integer limits are read as reals. */
  const SafeLimits: map<string, real> := map[
    "2. Total Dissolved Solid (mg/L)" := 500.0,
    "3. Total Suspended Solid (mg/L)" := 30.0,
    "6. Chemical Oxygen Demand (mg/L)" := 50.0,
    "7. Biochemical Oxygen Demand (mg/L)" := 10.0,
    "8. Dissloved Oxygen (mg/L)" := 5.0,
    "9. Sulphate (mg/L)" := 250.0,
    "11. Nitrate (mg/L)" := 10.0,
    "13. Ammonia (mg/L)" := 1.0,
    "15. Total Phosephate (mg/L)" := 0.1,
    "34. Fecal Coliform (MPN/100 ML)" := 100.0,
    "35. Total Coliform (MPN/100 ML)" := 1000.0
  ]

  /** Python's `KeyError` on a dictionary lookup. */
  datatype LookupError = KeyError(key: string)

  /**
   The list and the table describe the same eleven parameters: every entry
   of the list is a key of the table and every key is in the list.
   */
  lemma CatalogAgrees()
    ensures SafeLimits.Keys == set p | p in Parameters
  {
  }

  lemma ParametersDistinct()
    ensures |Parameters| == 11 && Distinct(Parameters)
  {
  }

  lemma CatalogSize()
    ensures |SafeLimits| == 11
  {
  }

  /**
   The lookup `safe_limits[selected_param]`: it succeeds exactly for the
   labels the selection control offers, and then yields the listed constant.
   */
  function SafeLimit(param: string): (r: Result<real, LookupError>)
    ensures r.Success? <==> param in Parameters
    ensures r.Success? ==> r.value == SafeLimits[param] && r.value > 0.0
    ensures r.Failure? ==> r.error == KeyError(param)
  {
    CatalogAgrees();
    if param in SafeLimits then Success(SafeLimits[param]) else Failure(KeyError(param))
  }

  /** Every choice of the selection control has a safe limit. */
  lemma {:induction false} SelectionIsTotal(i: nat)
    requires i < |Parameters|
    ensures SafeLimit(Parameters[i]).Success?
    ensures SafeLimit(Parameters[i]).value == SafeLimits[Parameters[i]]
  {
    assert Parameters[i] in Parameters;
  }
}
