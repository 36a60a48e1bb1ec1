/**
 * The `config:create` command: a chain of early-return guards (interactive
 * mode, an existing configuration, a missing certificate), two prompts whose
 * validators reject a null answer, and one call to the configuration
 * generator. Interactivity, file existence and the answers are inputs; the
 * result records which paths were probed, which prompts were shown, which
 * generator calls were made and how the command ended.
 */
module ConfigCreate {
  import opened Wrappers
  import opened Console

  /** The user name written into every generated configuration. */
  const DefaultUser := "default-user"

  const UrlPrompt := "Cluster URL"
  const TokenPrompt := "Access token"

  const NonInteractiveText := "This command cannot run in \"--no-interaction\" mode."
  const ConfigExistsText := "A configuration file already exists, please use \"--force\" to overwrite it."
  const UrlEmptyText := "Cluster URL cannot be empty."
  const TokenEmptyText := "Access token cannot be empty."
  const CreatedText := "New configuration file created successfully!"

  /** The error written when no certificate file is found at `path`. */
  function CertificateMissingText(path: string): (text: string) {
    "No certificate found at \"" + path + "\", please use \"--certificate\" to specify a custom path."
  }

  /**
   * One call of the configuration generator: the configuration path, the
   * user name, the path whose contents are encoded as the certificate, the
   * cluster URL and the access token.
   */
  datatype GeneratorCall = GeneratorCall(
    configPath: string, user: string, certificatePath: string, url: string, token: string)

  /** How the command ends: an exit status with its closing block, or an exception raised by a validator. */
  datatype Outcome = Exit(code: ExitCode, message: Message) | Thrown(error: string)

  /** Everything one run does, in order of occurrence within each kind. */
  datatype Run = Run(
    probes: seq<string>,           // paths given to is_file
    prompts: seq<string>,          // questions asked
    generated: seq<GeneratorCall>, // generator calls
    outcome: Outcome)

  // ---------------------------------------------------------------------
  // The prompt validators
  // ---------------------------------------------------------------------

  /** A validator that rejects a null answer with `error` and returns any other answer unchanged. */
  function NonNull(error: string, value: Option<string>): (r: Result<string, string>)
    ensures r.Ok? <==> value.Some?
    ensures r.Ok? ==> r.value == value.value
    ensures r.Err? ==> r.error == error
  {
    match value
    case None => Err(error)
    case Some(v) => Ok(v)
  }

  /** The validator of the cluster URL prompt. */
  function ValidateUrl(value: Option<string>): (r: Result<string, string>)
    ensures r.Ok? <==> value.Some?
    ensures r.Ok? ==> r.value == value.value
    ensures r.Err? ==> r.error == UrlEmptyText
  {
    NonNull(UrlEmptyText, value)
  }

  /** The validator of the access token prompt. */
  function ValidateToken(value: Option<string>): (r: Result<string, string>)
    ensures r.Ok? <==> value.Some?
    ensures r.Ok? ==> r.value == value.value
    ensures r.Err? ==> r.error == TokenEmptyText
  {
    NonNull(TokenEmptyText, value)
  }

  /** Only null is rejected: an empty answer passes both validators unchanged. */
  lemma EmptyAnswersAccepted()
    ensures ValidateUrl(Some("")) == Ok("")
    ensures ValidateToken(Some("")) == Ok("")
  {
  }

  // ---------------------------------------------------------------------
  // The command
  // ---------------------------------------------------------------------

  /** The guards that return INVALID before any prompt, in the order the command checks them, all passed. */
  predicate GuardsPass(interactive: bool, force: bool, certificatePath: string, kubeConfigPath: string,
                       isFile: string -> bool)
  {
    interactive && (force || !isFile(kubeConfigPath)) && isFile(certificatePath)
  }

  /**
   * Runs the command. `interactive` is the input's interactivity,
   * `forceOption` the value of `--force` (None when the option is null),
   * `isFile` answers the file-existence checks, and `urlAnswer` and
   * `tokenAnswer` are what the two prompts receive (None for null).
   */
  function Execute(interactive: bool, forceOption: Option<bool>, certificatePath: string,
                   kubeConfigPath: string, isFile: string -> bool,
                   urlAnswer: Option<string>, tokenAnswer: Option<string>): (run: Run)
    // never FAILURE: every exit status is SUCCESS or INVALID
    ensures run.outcome.Exit? ==> run.outcome.code != ExitFailure
    // non-interactive: INVALID before any file is checked or any question asked
    ensures !interactive ==>
      run.probes == [] && run.prompts == [] && run.generated == [] &&
      run.outcome == Exit(ExitInvalid, Error(NonInteractiveText))
    // an existing configuration without force: INVALID, only the configuration path was checked
    ensures interactive && !forceOption.GetOr(false) && isFile(kubeConfigPath) ==>
      run.probes == [kubeConfigPath] && run.prompts == [] && run.generated == [] &&
      run.outcome == Exit(ExitInvalid, Error(ConfigExistsText))
    // with force only the certificate path is checked; without it, the configuration path first
    ensures interactive && forceOption.GetOr(false) ==> run.probes == [certificatePath]
    ensures interactive && !forceOption.GetOr(false) && !isFile(kubeConfigPath) ==>
      run.probes == [kubeConfigPath, certificatePath]
    // a missing certificate: INVALID whatever force is, once the earlier guards passed
    ensures interactive && (forceOption.GetOr(false) || !isFile(kubeConfigPath)) && !isFile(certificatePath) ==>
      run.prompts == [] && run.generated == [] &&
      run.outcome == Exit(ExitInvalid, Error(CertificateMissingText(certificatePath)))
    // questions are asked only once every guard passed, the URL first
    ensures run.prompts != [] <==> GuardsPass(interactive, forceOption.GetOr(false), certificatePath, kubeConfigPath, isFile)
    ensures run.prompts != [] ==> run.prompts[0] == UrlPrompt
    ensures |run.prompts| == 2 <==> run.prompts != [] && urlAnswer.Some?
    ensures |run.prompts| <= 2
    ensures |run.prompts| == 2 ==> run.prompts == [UrlPrompt, TokenPrompt]
    // a rejected answer ends the run with the validator's exception
    ensures run.outcome.Thrown? <==>
      GuardsPass(interactive, forceOption.GetOr(false), certificatePath, kubeConfigPath, isFile) &&
      (urlAnswer.None? || tokenAnswer.None?)
    ensures run.outcome.Thrown? ==>
      run.outcome.error == (if urlAnswer.None? then UrlEmptyText else TokenEmptyText)
    // SUCCESS exactly when every guard passed and both answers are non-null
    ensures run.outcome.Exit? && run.outcome.code == ExitSuccess <==>
      GuardsPass(interactive, forceOption.GetOr(false), certificatePath, kubeConfigPath, isFile) &&
      urlAnswer.Some? && tokenAnswer.Some?
    ensures run.outcome.Exit? && run.outcome.code == ExitSuccess ==>
      run.outcome.message == Success(CreatedText)
    // the generator is called once on SUCCESS, with the default user and the configured path, and never otherwise
    ensures run.outcome.Exit? && run.outcome.code == ExitSuccess ==>
      run.generated == [GeneratorCall(kubeConfigPath, DefaultUser, certificatePath, urlAnswer.value, tokenAnswer.value)]
    ensures !(run.outcome.Exit? && run.outcome.code == ExitSuccess) ==> run.generated == []
  {
    var force := forceOption.GetOr(false);
    if !interactive then
      Run([], [], [], Exit(ExitInvalid, Error(NonInteractiveText)))
    else
      var configProbes := if force then [] else [kubeConfigPath];
      if !force && isFile(kubeConfigPath) then
        Run(configProbes, [], [], Exit(ExitInvalid, Error(ConfigExistsText)))
      else
        var probes := configProbes + [certificatePath];
        if !isFile(certificatePath) then
          Run(probes, [], [], Exit(ExitInvalid, Error(CertificateMissingText(certificatePath))))
        else
          match ValidateUrl(urlAnswer)
          case Err(e) => Run(probes, [UrlPrompt], [], Thrown(e))
          case Ok(url) =>
            match ValidateToken(tokenAnswer)
            case Err(e) => Run(probes, [UrlPrompt, TokenPrompt], [], Thrown(e))
            case Ok(token) =>
              Run(probes, [UrlPrompt, TokenPrompt],
                  [GeneratorCall(kubeConfigPath, DefaultUser, certificatePath, url, token)],
                  Exit(ExitSuccess, Success(CreatedText)))
  }

  /** A null `--force` behaves exactly as an explicit false. */
  lemma ForceDefaultsToFalse(interactive: bool, certificatePath: string, kubeConfigPath: string,
                             isFile: string -> bool, urlAnswer: Option<string>, tokenAnswer: Option<string>)
    ensures Execute(interactive, None, certificatePath, kubeConfigPath, isFile, urlAnswer, tokenAnswer) ==
            Execute(interactive, Some(false), certificatePath, kubeConfigPath, isFile, urlAnswer, tokenAnswer)
  {
  }

  /**
   * With force, whether a configuration file exists has no effect at all:
   * two file systems that agree on the certificate give the same run.
   */
  lemma ForceIgnoresExistingConfig(interactive: bool, certificatePath: string, kubeConfigPath: string,
                                   isFile1: string -> bool, isFile2: string -> bool,
                                   urlAnswer: Option<string>, tokenAnswer: Option<string>)
    requires isFile1(certificatePath) == isFile2(certificatePath)
    ensures Execute(interactive, Some(true), certificatePath, kubeConfigPath, isFile1, urlAnswer, tokenAnswer) ==
            Execute(interactive, Some(true), certificatePath, kubeConfigPath, isFile2, urlAnswer, tokenAnswer)
  {
  }

  /** A non-interactive run does not depend on anything else. */
  lemma NonInteractiveIgnoresEverything(forceOption: Option<bool>, certificatePath: string, kubeConfigPath: string,
                                        isFile: string -> bool, urlAnswer: Option<string>, tokenAnswer: Option<string>)
    ensures Execute(false, forceOption, certificatePath, kubeConfigPath, isFile, urlAnswer, tokenAnswer) ==
            Execute(false, None, "", "", _ => false, None, None)
  {
  }
}
