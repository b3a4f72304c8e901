/**
 * The two argument checks of the command line that the ranking relies on:
 * the subnet mask length must lie in 0..32, and every country code, once
 * upper-cased, must have two letters.
 */
module Cli {
  import opened Wrappers
  import opened Text

  datatype UsageError = BadSubnet(mask: int) | BadCountryCodes(codes: set<string>)

  /** What `main` is called with. */
  datatype Invocation = Invocation(countries: Option<set<string>>, netmask: Option<nat>)

  /**
   * Checks `--subnet` first, then the upper-cased `--country` codes; with no
   * codes, `main` falls back to the caller's own country.  A usage error
   * reports every code of the wrong length.
   */
  function ParseArguments(countries: seq<string>, subnet: Option<int>): (r: Result<Invocation, UsageError>)
    ensures r.Success? <==>
      && (subnet.Some? ==> 0 <= subnet.value <= 32)
      && forall i | 0 <= i < |countries| :: |countries[i]| == 2
    ensures subnet.Some? && !(0 <= subnet.value <= 32) ==> r == Failure(BadSubnet(subnet.value))
    ensures r.Failure? ==> (r.error.BadSubnet? <==> subnet.Some? && !(0 <= subnet.value <= 32))
    ensures r.Success? ==>
      && (r.value.netmask.Some? <==> subnet.Some?)
      && (subnet.Some? ==> r.value.netmask.value == subnet.value <= 32)
      && (r.value.countries.Some? <==> |countries| > 0)
    ensures r.Success? && r.value.countries.Some? ==>
      && (forall code | code in r.value.countries.value :: |code| == 2 && IsUpperCase(code))
      && (forall i | 0 <= i < |countries| :: Upper(countries[i]) in r.value.countries.value)
      && (forall code | code in r.value.countries.value :: exists i | 0 <= i < |countries| :: code == Upper(countries[i]))
    ensures r.Failure? && r.error.BadCountryCodes? ==>
      && r.error.codes != {}
      && (forall code | code in r.error.codes :: |code| != 2)
      && (forall code | code in r.error.codes :: exists i | 0 <= i < |countries| :: code == Upper(countries[i]))
      && (forall i | 0 <= i < |countries| && |countries[i]| != 2 :: Upper(countries[i]) in r.error.codes)
  {
    if subnet.Some? && !(0 <= subnet.value <= 32) then Failure(BadSubnet(subnet.value))
    else
      var netmask: Option<nat> := if subnet.Some? then Some(subnet.value) else None;
      if |countries| == 0 then Success(Invocation(None, netmask))
      else
        var codes := set i | 0 <= i < |countries| :: Upper(countries[i]);
        var bad := set code | code in codes && |code| != 2;
        if bad != {} then
          assert exists i | 0 <= i < |countries| :: |countries[i]| != 2 by {
            var code :| code in bad;
          }
          Failure(BadCountryCodes(bad))
        else
          assert forall code | code in codes :: IsUpperCase(code) by {
            forall i | 0 <= i < |countries| ensures IsUpperCase(Upper(countries[i])) {
              UpperNormalises(countries[i]);
            }
          }
          assert forall i | 0 <= i < |countries| :: |countries[i]| == 2 by {
            forall i | 0 <= i < |countries| ensures |countries[i]| == 2 {
              var code := Upper(countries[i]);
              assert code in codes && code !in bad;
              assert |code| == |countries[i]|;
            }
          }
          Success(Invocation(Some(codes), netmask))
  }
}
