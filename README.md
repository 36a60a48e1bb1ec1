# Two commands of the MEP Web Toolkit Kubernetes CLI, in Dafny

This project models two console commands of the MEP Web Toolkit Kubernetes CLI.

- **`super-user:delete`** (`SuperUserDelete`, `super_user_delete.dfy`) deletes the three cluster objects that make up a super-user:
  - the role binding `<account>-role-binding`;
  - the role `<account>-role`;
  - the service account `<account>`.

  Each deletion sits in its own try/catch, and each ends in one of three ways:
  - it completes, and the counter goes up by one;
  - it is stopped (`StopExecutionException`), and is skipped in silence;
  - the cluster refuses it (`KubernetesAPIException`), and one warning is written carrying the payload's `message`, or "no error message" when there is none.

  When all three steps have run, the counter alone grades the run:
  - 0 gives a warning and INVALID;
  - 1 or 2 gives an error with a pluralised sentence and INVALID;
  - 3 gives a success block and SUCCESS.

  The model is imperative:
  - `RunStep` is one try/catch block.
  - `RunPlan` is a loop over the three-step plan that updates the counter and the output log.
  - `Grade` is the pure grading.
  - `Execute` composes them.

  The methods are proved against the specification functions `CountDeleted`, `Failures` and `Warnings`. The lemmas about those functions state what the command promises:
  - the counter counts exactly the completed steps;
  - exactly one warning is written per refused step;
  - later steps are isolated from how earlier ones ended;
  - the exact wording of every closing block.

  How a step ends is decided by an oracle: a function from the object to delete to its outcome. The oracle stands for the cluster lookup together with `deleteOrStop`.
- **`config:create`** (`ConfigCreate`, `config_create.dfy`) is a chain of early-return guards followed by two prompts and one call to the configuration generator:
  - the run must be interactive;
  - an existing configuration file needs `--force`;
  - the certificate file must exist;
  - the prompts' validators reject a null answer.

  The model is a pure function `Execute`. Its inputs are:
  - the interactivity;
  - the `--force` value, which may be null;
  - the two paths;
  - an `isFile` oracle;
  - the two answers.

  It returns a `Run`, which records:
  - the paths checked;
  - the questions asked;
  - the generator calls made;
  - the outcome.

Shared types: `Wrappers` (`Option`, `Result`) and `Console`.
- `ExitCode` is `SUCCESS`, `FAILURE` or `INVALID`.
- `Message` is the warning, error or success block that SymfonyStyle writes.

The warning for a refused role keeps the command's own spelling, "Failed deletig the role: ".

## Model

| member | source | states |
|---|---|---|
| SuperUserDelete.Execute | src/Command/SuperUserDeleteCommand.php:66-147 | The three steps are attempted in the order binding `<account>-role-binding`, role `<account>-role`, account `<account>`, in the given namespace. The counter is the number of completed steps. The output is the warnings of the refused steps in order, followed by the grade's closing block. The exit status is the grade of the counter. |
| SuperUserDelete.RunPlan | src/Command/SuperUserDeleteCommand.php:75-127 | Every step of the plan is attempted in order, whatever earlier steps did. The final counter equals `CountDeleted` and the log equals `Warnings` of the plan. |
| SuperUserDelete.RunStep | src/Command/SuperUserDeleteCommand.php:76-91 | One try/catch: the counter goes up by one exactly when the step completed, and the log gains exactly the warnings of that step's failures. |
| SuperUserDelete.StepWarnings | src/Command/SuperUserDeleteCommand.php:85-91 | A refused step writes exactly one warning, `FailureText` of its kind and payload. A completed or stopped step writes nothing. |
| SuperUserDelete.ResourceName | src/Command/SuperUserDeleteCommand.php:79-115 | Every object name begins with the service account's name. |
| SuperUserDelete.ResourceNamesDistinct | src/Command/SuperUserDeleteCommand.php:79-115 | The binding, role and account names of one account are pairwise different. |
| SuperUserDelete.Plan | src/Command/SuperUserDeleteCommand.php:75-127 | The plan has three steps, each named after the account for its kind and placed in the given namespace. |
| SuperUserDelete.PrefixNamesResource | src/Command/SuperUserDeleteCommand.php:89-125 | Every warning prefix (`FailurePrefix`) starts with "Failed " and ends with ": ", and the three kinds have three different prefixes. |
| SuperUserDelete.FailureTextCarriesMessage | src/Command/SuperUserDeleteCommand.php:89-125 | A warning (`FailureText`) is its kind's prefix, then the payload's message or "no error message", then a period. |
| SuperUserDelete.WarningIdentifiesStep | src/Command/SuperUserDeleteCommand.php:87-127 | Equal warning texts come from the same kind of resource and the same payload message. The warning thus names its resource and carries the message, or "no error message". |
| SuperUserDelete.CountDeleted | src/Command/SuperUserDeleteCommand.php:73-127 | The counter never exceeds the number of steps. |
| SuperUserDelete.Failures | src/Command/SuperUserDeleteCommand.php:87-127 | There are no more failures than steps; `FailureCountIsFailedSteps` gives the exact number. |
| SuperUserDelete.RenderAt | src/Command/SuperUserDeleteCommand.php:87-127 | The k-th warning written is the warning for the k-th failure. |
| SuperUserDelete.StepContribution | src/Command/SuperUserDeleteCommand.php:76-127 | Within any run, a completed step adds one to the counter and no failure. A stopped step adds neither. A refused step adds no count and exactly its own failure. The steps after it still contribute. |
| SuperUserDelete.LaterStepsIsolated | src/Command/SuperUserDeleteCommand.php:76-127 | The counter and warnings of later steps are the same for every oracle that agrees on those later steps, whatever the earlier steps did. |
| SuperUserDelete.CountIsDeletedSteps | src/Command/SuperUserDeleteCommand.php:73-127 | The counter equals the number of steps whose outcome is Deleted. |
| SuperUserDelete.FailureCountIsFailedSteps | src/Command/SuperUserDeleteCommand.php:87-127 | The number of warnings equals the number of steps that raised KubernetesAPIException. |
| SuperUserDelete.FailuresAreFailedSteps | src/Command/SuperUserDeleteCommand.php:87-127 | A failure (kind, payload) is recorded if and only if some step of that kind raised KubernetesAPIException with that payload. |
| SuperUserDelete.CountExtremes | src/Command/SuperUserDeleteCommand.php:73-127 | The counter reaches the plan length exactly when every step completed, and stays 0 exactly when none did. |
| SuperUserDelete.CountAppend | src/Command/SuperUserDeleteCommand.php:73-127 | The counter of two runs in sequence is the sum of their counters. |
| SuperUserDelete.FailuresAppend | src/Command/SuperUserDeleteCommand.php:87-127 | The failures of two runs in sequence are the first's followed by the second's. |
| SuperUserDelete.DecimalString | src/Command/SuperUserDeleteCommand.php:138 | The count is written as a non-empty string of decimal digits whose value, read back by `DigitsValue`, is the count. |
| SuperUserDelete.PartialTextCarriesCount | src/Command/SuperUserDeleteCommand.php:138 | The partial-run sentence (`PartialText`) starts with "Only " followed by the decimal counter, and those digits denote the counter. |
| SuperUserDelete.SingularText | src/Command/SuperUserDeleteCommand.php:136-142 | One deleted resource gives "Only 1 resource (out of 3) has been deleted successfully." |
| SuperUserDelete.PluralText | src/Command/SuperUserDeleteCommand.php:136-142 | Two deleted resources give "Only 2 resources (out of 3) have been deleted successfully." |
| SuperUserDelete.Grade | src/Command/SuperUserDeleteCommand.php:130-146 | The status is never FAILURE, and it is SUCCESS if and only if the counter is at least 3, which for three steps means all of them. Counter 0 gives the warning "No resource has been deleted.". Counter 1 or 2 gives the "Only N …" error. Counter 3 or more gives the success block `Service account "<account>" deleted successfully!`. |
| SuperUserDelete.SuccessIffAllDeleted | src/Command/SuperUserDeleteCommand.php:73-146 | The command returns SUCCESS if and only if all three steps of the plan completed. |
| ConfigCreate.NonNull | src/Command/ConfigCreateCommand.php:91-105 | A validator rejects null with its message and returns any non-null answer unchanged. |
| ConfigCreate.ValidateUrl | src/Command/ConfigCreateCommand.php:91-97 | The URL validator rejects null with "Cluster URL cannot be empty." and passes any other answer through. |
| ConfigCreate.ValidateToken | src/Command/ConfigCreateCommand.php:99-105 | The token validator rejects null with "Access token cannot be empty." and passes any other answer through. |
| ConfigCreate.EmptyAnswersAccepted | src/Command/ConfigCreateCommand.php:91-105 | The empty string is accepted by both validators. |
| ConfigCreate.Execute | src/Command/ConfigCreateCommand.php:63-118 | The status is never FAILURE. A non-interactive run returns INVALID before any file check or prompt. An existing configuration without force returns INVALID after checking only that path. With force only the certificate is checked; without force and with no existing configuration, the configuration path and then the certificate are checked. A missing certificate returns INVALID whatever force is. Prompts appear exactly when every guard passed: "Cluster URL" first, then "Access token" once the URL was accepted. A null answer ends the run with that validator's exception. SUCCESS holds exactly when every guard passed and both answers are non-null. The generator is then called exactly once, with the configured path and `default-user`, and is never called otherwise. |
| ConfigCreate.ForceDefaultsToFalse | src/Command/ConfigCreateCommand.php:66-76 | A null `--force` behaves exactly as false. |
| ConfigCreate.ForceIgnoresExistingConfig | src/Command/ConfigCreateCommand.php:76-80 | With force, the run does not depend on whether a configuration file exists. |
| ConfigCreate.NonInteractiveIgnoresEverything | src/Command/ConfigCreateCommand.php:70-74 | A non-interactive run is the same whatever the other inputs are. |

## Left out

- `AppUninstallCommand` is not part of this model. All of its substance is in a Helm collaborator that is not shown.
- The `configure()` methods are not modelled. They only declare options and arguments.
- `AbstractK8sCommand::deleteOrStop` is not shown, so its internals are not modelled, including its confirmation prompt and the handling of `--force`. Together with the object lookup, it is the step oracle. The model does not assume that a missing object is skipped.
- The Kubernetes client is not modelled: the `get*ByName` lookups, the delete calls, and exceptions other than StopExecutionException and KubernetesAPIException. Any other exception would propagate out of the command in PHP; the model has no such outcome.
- SymfonyStyle's rendering of blocks is not modelled, nor the integer values of the exit codes. A block is its kind and its text.
- `is_file` is not modelled: it is the `isFile` oracle, and the run records which paths were given to it.
- `file_get_contents` and `base64_encode` are not modelled. The recorded generator call carries the certificate path instead of its encoded contents.
- `K8sConfigGenerator::generateConfigFileFromData` is not modelled. It is recorded as one call with its arguments.
- Symfony's own handling of a validator exception is not modelled. Its QuestionHelper asks the question again until the validator accepts, with no limit on attempts by default. The model's `Thrown` outcome is a simplification: it ends the run at the first rejected answer.
- The partial-run sentence always says "(out of 3)", as the command writes it. It is not tied to the length of the plan.
