/** The configuration form checks of DashboardBuilder.DescriptorImpl. */
module Descriptor {
  import opened Text
  import DashboardBuilder

  /** hudson.util.FormValidation, reduced to its two outcomes used here. */
  datatype FormValidation = Ok | Error(message: string)

  /** doCheckNameOfEnv: only the empty value is refused. */
  function DoCheckNameOfEnv(value: string): (r: FormValidation)
    ensures r.Error? <==> |value| == 0
    ensures r.Error? ==> r.message == "Please set an Environment name."
  {
    if |value| == 0 then Error("Please set an Environment name.") else Ok
  }

  /** doCheckComponentName: only the empty value is refused. */
  function DoCheckComponentName(value: string): (r: FormValidation)
    ensures r.Error? <==> |value| == 0
    ensures r.Error? ==> r.message == "Please set a Component name."
  {
    if |value| == 0 then Error("Please set a Component name.") else Ok
  }

  /** doCheckBuildNumber: only the empty value is refused. */
  function DoCheckBuildNumber(value: string): (r: FormValidation)
    ensures r.Error? <==> |value| == 0
    ensures r.Error? ==> r.message == "Please set the Build variable e.g: ${BUILD_NUMBER}."
  {
    if |value| == 0 then Error("Please set the Build variable e.g: ${BUILD_NUMBER}.") else Ok
  }

  /** All three required fields pass the form. */
  predicate FormAccepts(envName: string, compName: string, buildNumber: string) {
    DoCheckNameOfEnv(envName) == Ok && DoCheckComponentName(compName) == Ok && DoCheckBuildNumber(buildNumber) == Ok
  }

  /** The form is weaker than the hooks' gate: whatever it refuses is blank, so a
      configuration that expands to itself and passes the gate passed the form. */
  lemma GateImpliesForm(x: DashboardBuilder.Expanded)
    requires DashboardBuilder.Required(x)
    ensures FormAccepts(x.envName, x.compName, x.buildNumber)
  {
    assert |x.envName| > 0 && |x.compName| > 0 && |x.buildNumber| > 0;
  }

  /** ... and strictly weaker: a whitespace-only value passes every check, yet
      the hooks will not write it. */
  lemma WhitespacePassesFormNotGate(value: string)
    requires |value| > 0 && Blank(value)
    ensures DoCheckNameOfEnv(value) == Ok
    ensures DoCheckComponentName(value) == Ok
    ensures DoCheckBuildNumber(value) == Ok
    ensures forall x: DashboardBuilder.Expanded ::
      (x.envName == value || x.compName == value || x.buildNumber == value) ==> !DashboardBuilder.Required(x)
  {
  }
}
