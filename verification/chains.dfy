/** The first-match loop both strategy chains of the service run: try each
    strategy in order and use the first one that declares itself applicable. */
module Chains {
  import opened Wrappers

  /** The position of the first element of `chain` that `applies` accepts,
      or `None` when it accepts none. */
  function FirstMatch<T>(chain: seq<T>, applies: T -> bool): (r: Option<nat>)
    ensures r.Some? ==> r.value < |chain| && applies(chain[r.value])
    ensures r.Some? ==> forall j :: 0 <= j < r.value ==> !applies(chain[j])
    ensures r.None? <==> forall j :: 0 <= j < |chain| ==> !applies(chain[j])
  {
    if chain == [] then None
    else if applies(chain[0]) then Some(0)
    else
      match FirstMatch(chain[1..], applies)
      case None => None
      case Some(i) => Some(i + 1)
  }
}
