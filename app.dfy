/** The main screen's own state and handlers: the chosen file, the editable
    prompt, the busy flag and the modal flag, next to the shared state of
    the provider. Each handler is one sequential state transition; what the
    asynchronous analysis settles to, `window.confirm`'s answer and the PDF
    metadata are inputs. */
module App {
  import opened Wrappers
  import opened Text
  import opened Types
  import opened Organizations
  import opened AppContext
  import opened PdfAnalysis

  /** A chosen file; only its presence matters to the screen. */
  datatype PdfFile = PdfFile(name: string)

  /** How the awaited analysis settled. */
  datatype AnalysisOutcome = Completed(result: AnalysisResult) | Threw(thrown: Thrown)

  const CancelledMessage: string := "ANALYSIS_CANCELLED"
  const AlertPrefix: string := "Erro ao processar PDF: "
  const UnknownError: string := "Erro desconhecido"

  /** The `onBeforeAnalysis` check asks the user exactly when the PDF names
      a company and it is not the selected organization's name. */
  predicate AsksConfirmation(company: Option<string>, organizationName: string) {
    company.Some? && company.value != "" && company.value != organizationName
  }

  /** The `onBeforeAnalysis` answer: the user's answer when asked, and
      `true` otherwise. */
  function ContinueAnalysis(company: Option<string>, organizationName: string, userConfirms: bool)
    : (proceed: bool)
    ensures AsksConfirmation(company, organizationName) ==> proceed == userConfirms
    ensures !AsksConfirmation(company, organizationName) ==> proceed
    ensures !proceed ==> company.Some? && company.value != organizationName && !userConfirms
  {
    if company.Some? && company.value != "" && company.value != organizationName then userConfirms else true
  }

  /** The question shown by `window.confirm`; it names both organizations. */
  function ConfirmationMessage(company: string, organizationName: string): (msg: string)
    ensures IsInfix(company, msg) && IsInfix(organizationName, msg)
  {
    var head := "O PDF indica a organização \"";
    var middle := "\", diferente da organização selecionada (";
    var tail := "). Deseja continuar mesmo assim?";
    InfixOfConcat(head, company, middle + organizationName + tail);
    InfixOfConcat(head + company + middle, organizationName, tail);
    ConcatAssoc3(head + company, middle, organizationName, tail);
    head + company + middle + organizationName + tail
  }

  /** The alert for a thrown value: none for the cancellation error, and
      otherwise the fixed prefix followed by the error's message, or by a
      fixed text for a value that is not an `Error`. */
  function AlertFor(thrown: Thrown): (alert: Option<string>)
    ensures alert.None? <==> thrown == ErrorValue(CancelledMessage)
    ensures alert.Some? ==> |alert.value| >= |AlertPrefix| && alert.value[..|AlertPrefix|] == AlertPrefix
    ensures alert.Some? && thrown.ErrorValue? ==> alert.value[|AlertPrefix|..] == thrown.message
    ensures alert.Some? && thrown.NonError? ==> alert.value[|AlertPrefix|..] == UnknownError
  {
    match thrown
    case ErrorValue(message) =>
      if message == CancelledMessage then None else Some(AlertPrefix + message)
    case NonError => Some(AlertPrefix + UnknownError)
  }

  class AppContent {
    const ctx: AppProvider
    var selectedFile: Option<PdfFile>
    var prompt: string
    var isAnalyzing: bool
    var isModalOpen: bool

    constructor(ctx: AppProvider)
      ensures this.ctx == ctx && selectedFile.None? && prompt == "" && !isAnalyzing && !isModalOpen
    {
      this.ctx := ctx;
      selectedFile := None;
      prompt := "";
      isAnalyzing := false;
      isModalOpen := false;
    }

    /** `hasRequiredData`: a file, a selected organization and a prompt
        with at least one non-whitespace character. */
    function HasRequiredData(): (ready: bool)
      reads this, ctx
      ensures ready <==> selectedFile.Some? && ctx.selectedOrganization.Some?
                         && exists i :: 0 <= i < |prompt| && !IsWhitespace(prompt[i])
    {
      selectedFile.Some? && ctx.selectedOrganization.Some? && Trim(prompt) != ""
    }

    /** `canAnalyze`: the data is there and no analysis is running. */
    function CanAnalyze(): (can: bool)
      reads this, ctx
      ensures can ==> HasRequiredData() && !isAnalyzing
      ensures isAnalyzing ==> !can
      ensures HasRequiredData() && !isAnalyzing ==> can
    {
      HasRequiredData() && !isAnalyzing
    }

    /** The synchronous start of `handleAnalyze`: it returns early, changing
        nothing, unless the required data is there; then the busy flag goes
        up. */
    method StartAnalysis() returns (started: bool)
      modifies this
      ensures started == old(HasRequiredData())
      ensures started ==> isAnalyzing
      ensures !started ==> isAnalyzing == old(isAnalyzing)
      ensures selectedFile == old(selectedFile) && prompt == old(prompt) && isModalOpen == old(isModalOpen)
    {
      if !HasRequiredData() {
        return false;
      }
      isAnalyzing := true;
      started := true;
    }

    /** The continuation of `handleAnalyze` once the analysis settled: a
        completed analysis stores its result; a thrown value only yields
        its alert (none for the cancellation) and leaves the result alone.
        The busy flag goes down in every case. */
    method FinishAnalysis(outcome: AnalysisOutcome) returns (alert: Option<string>)
      modifies this, ctx
      ensures !isAnalyzing
      ensures outcome.Completed? ==> ctx.analysisResult == Some(outcome.result) && alert.None?
      ensures outcome.Threw? ==> ctx.analysisResult == old(ctx.analysisResult) && alert == AlertFor(outcome.thrown)
      ensures selectedFile == old(selectedFile) && prompt == old(prompt) && isModalOpen == old(isModalOpen)
      ensures ctx.organizations == old(ctx.organizations) && ctx.selectedOrganization == old(ctx.selectedOrganization)
      ensures ctx.isDarkMode == old(ctx.isDarkMode) && ctx.isLoadingOrganizations == old(ctx.isLoadingOrganizations)
    {
      alert := None;
      match outcome {
        case Completed(result) =>
          ctx.SetAnalysisResult(Some(result));
        case Threw(thrown) =>
          alert := AlertFor(thrown);
      }
      isAnalyzing := false;
    }

    /** `handleAnalyze` from start to finish. */
    method HandleAnalyze(outcome: AnalysisOutcome) returns (started: bool, alert: Option<string>)
      modifies this, ctx
      ensures started == old(HasRequiredData())
      ensures !started ==> alert.None? && isAnalyzing == old(isAnalyzing)
                           && ctx.analysisResult == old(ctx.analysisResult)
      ensures started ==> !isAnalyzing
      ensures started && outcome.Completed? ==> ctx.analysisResult == Some(outcome.result) && alert.None?
      ensures started && outcome.Threw? ==>
                ctx.analysisResult == old(ctx.analysisResult) && alert == AlertFor(outcome.thrown)
      ensures selectedFile == old(selectedFile) && prompt == old(prompt) && isModalOpen == old(isModalOpen)
      ensures ctx.selectedOrganization == old(ctx.selectedOrganization)
      ensures ctx.organizations == old(ctx.organizations) && ctx.isDarkMode == old(ctx.isDarkMode)
      ensures ctx.isLoadingOrganizations == old(ctx.isLoadingOrganizations)
    {
      alert := None;
      started := StartAnalysis();
      if started {
        alert := FinishAnalysis(outcome);
      }
    }

    /** The effect on a changed selection: the prompt becomes the selected
        organization's prompt and the result is cleared; with no selection
        nothing happens. */
    method SelectedOrganizationEffect()
      modifies this, ctx
      ensures ctx.selectedOrganization.Some? ==>
                prompt == ctx.selectedOrganization.value.prompt && ctx.analysisResult.None?
      ensures ctx.selectedOrganization.None? ==>
                prompt == old(prompt) && ctx.analysisResult == old(ctx.analysisResult)
      ensures ctx.selectedOrganization == old(ctx.selectedOrganization)
      ensures selectedFile == old(selectedFile) && isAnalyzing == old(isAnalyzing) && isModalOpen == old(isModalOpen)
      ensures ctx.organizations == old(ctx.organizations) && ctx.isDarkMode == old(ctx.isDarkMode)
      ensures ctx.isLoadingOrganizations == old(ctx.isLoadingOrganizations)
    {
      if ctx.selectedOrganization.Some? {
        prompt := ctx.selectedOrganization.value.prompt;
        ctx.SetAnalysisResult(None);
      }
    }

    /** The effect on a changed result: a result opens the modal; clearing
        the result does not close it. */
    method AnalysisResultEffect()
      modifies this
      ensures isModalOpen == (old(isModalOpen) || ctx.analysisResult.Some?)
      ensures selectedFile == old(selectedFile) && prompt == old(prompt) && isAnalyzing == old(isAnalyzing)
    {
      if ctx.analysisResult.Some? {
        isModalOpen := true;
      }
    }

    /** Choosing an organization on the screen: the provider's setter and
        the effect it triggers. The prompt is replaced by the chosen
        organization's and no result is left. */
    method ChooseOrganization(organization: Organization)
      modifies this, ctx
      ensures ctx.selectedOrganization == Some(organization)
      ensures prompt == organization.prompt && ctx.analysisResult.None?
      ensures selectedFile == old(selectedFile) && isAnalyzing == old(isAnalyzing) && isModalOpen == old(isModalOpen)
      ensures ctx.organizations == old(ctx.organizations) && ctx.isDarkMode == old(ctx.isDarkMode)
      ensures ctx.isLoadingOrganizations == old(ctx.isLoadingOrganizations)
    {
      ctx.SetSelectedOrganization(Some(organization));
      SelectedOrganizationEffect();
    }

    /** `handleAnalyze` followed by the effect that watches the result: the
        effect runs only when the result changed, which is exactly when a
        started analysis completed; then the result is stored and the modal
        shows it. Otherwise the modal flag keeps its value. */
    method AnalyzeAndShow(outcome: AnalysisOutcome) returns (started: bool, alert: Option<string>)
      modifies this, ctx
      ensures started == old(HasRequiredData())
      ensures started ==> !isAnalyzing
      ensures !started ==> alert.None? && isAnalyzing == old(isAnalyzing)
                           && ctx.analysisResult == old(ctx.analysisResult)
      ensures started && outcome.Completed? ==>
                ctx.analysisResult == Some(outcome.result) && alert.None? && isModalOpen
      ensures started && outcome.Threw? ==>
                ctx.analysisResult == old(ctx.analysisResult) && alert == AlertFor(outcome.thrown)
      ensures !(started && outcome.Completed?) ==> isModalOpen == old(isModalOpen)
      ensures selectedFile == old(selectedFile) && prompt == old(prompt)
      ensures ctx.selectedOrganization == old(ctx.selectedOrganization)
      ensures ctx.organizations == old(ctx.organizations) && ctx.isDarkMode == old(ctx.isDarkMode)
      ensures ctx.isLoadingOrganizations == old(ctx.isLoadingOrganizations)
    {
      started, alert := HandleAnalyze(outcome);
      if started && outcome.Completed? {
        AnalysisResultEffect();
      }
    }
  }
}
