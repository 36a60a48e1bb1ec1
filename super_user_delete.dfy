/**
 * The `super-user:delete` command: a cascade that deletes a service
 * account's role binding, then its role, then the account itself. Each step
 * is isolated from the others: a step that is stopped is skipped in silence,
 * a step the cluster refuses leaves one warning, and only a step that
 * completes counts. The number of completed steps alone grades the run.
 */
module SuperUserDelete {
  import opened Wrappers
  import opened Console

  /** The three kinds of cluster object the cascade removes. */
  datatype Kind = RoleBinding | Role | ServiceAccount

  /** One object to delete, identified by kind, name and namespace. */
  datatype Descriptor = Descriptor(kind: Kind, name: string, namespace: string)

  /**
   * How one step ended, as the command observes it: the lookup and
   * `deleteOrStop` returned normally, they raised StopExecutionException,
   * or they raised KubernetesAPIException whose payload may carry a
   * `message` entry.
   */
  datatype StepOutcome = Deleted | Stopped | ApiError(payload: Option<string>)

  /** A step that raised KubernetesAPIException: which resource, and the payload's message if any. */
  datatype Failure = Failure(kind: Kind, payload: Option<string>)

  /** The verdict of a whole run: the exit status and the closing block. */
  datatype Verdict = Verdict(code: ExitCode, summary: Message)

  /** Text used in a warning when the exception payload has no message. */
  const NoErrorMessage := "no error message"

  // ---------------------------------------------------------------------
  // The deletion plan
  // ---------------------------------------------------------------------

  /** The name of the object of kind `kind` that belongs to `account`. */
  function ResourceName(account: string, kind: Kind): (name: string)
    ensures account <= name
  {
    match kind
    case RoleBinding => account + "-role-binding"
    case Role => account + "-role"
    case ServiceAccount => account
  }

  /** The three objects of one account have three different names. */
  lemma ResourceNamesDistinct(account: string, k1: Kind, k2: Kind)
    requires k1 != k2
    ensures ResourceName(account, k1) != ResourceName(account, k2)
  {
  }

  /** The deletion plan: the binding first, then the role it binds, the account last. */
  function Plan(account: string, namespace: string): (plan: seq<Descriptor>)
    ensures |plan| == 3
    ensures forall i :: 0 <= i < |plan| ==>
      plan[i].name == ResourceName(account, plan[i].kind) && plan[i].namespace == namespace
  {
    [ Descriptor(RoleBinding, ResourceName(account, RoleBinding), namespace),
      Descriptor(Role, ResourceName(account, Role), namespace),
      Descriptor(ServiceAccount, ResourceName(account, ServiceAccount), namespace) ]
  }

  // ---------------------------------------------------------------------
  // Warning texts
  // ---------------------------------------------------------------------

  /** The start of the warning for a failed step; the role's is spelled as the command spells it. */
  function FailurePrefix(kind: Kind): (prefix: string) {
    match kind
    case RoleBinding => "Failed deleting the role binding: "
    case Role => "Failed deletig the role: "
    case ServiceAccount => "Failed deleting the service account: "
  }

  /** The warning written when a step raised KubernetesAPIException. */
  function FailureText(kind: Kind, payload: Option<string>): (text: string) {
    FailurePrefix(kind) + payload.GetOr(NoErrorMessage) + "."
  }

  /** Each prefix starts with "Failed ", ends with ": ", and differs from kind to kind. */
  lemma PrefixNamesResource(k1: Kind, k2: Kind)
    ensures "Failed " <= FailurePrefix(k1)
    ensures |FailurePrefix(k1)| >= 2 && FailurePrefix(k1)[|FailurePrefix(k1)| - 2..] == ": "
    ensures FailurePrefix(k1) == FailurePrefix(k2) ==> k1 == k2
  {
  }

  /** A warning is its kind's prefix, then the payload's message (or "no error message"), then a period. */
  lemma FailureTextCarriesMessage(kind: Kind, payload: Option<string>)
    ensures var text := FailureText(kind, payload);
      FailurePrefix(kind) <= text && text[|text| - 1] == '.' &&
      text[|FailurePrefix(kind)|..|text| - 1] == payload.GetOr(NoErrorMessage)
  {
    var prefix, message := FailurePrefix(kind), payload.GetOr(NoErrorMessage);
    assert (prefix + message + ".")[|prefix|..|prefix| + |message|] == message;
  }

  /** A warning names its resource and carries its message: equal texts come from equal causes. */
  lemma WarningIdentifiesStep(k1: Kind, p1: Option<string>, k2: Kind, p2: Option<string>)
    requires FailureText(k1, p1) == FailureText(k2, p2)
    ensures k1 == k2
    ensures p1.GetOr(NoErrorMessage) == p2.GetOr(NoErrorMessage)
  {
    var t := FailureText(k1, p1);
    assert t[13] == FailurePrefix(k1)[13] && t[20] == FailurePrefix(k1)[20];
    assert t[13] == FailurePrefix(k2)[13] && t[20] == FailurePrefix(k2)[20];
    var prefix := FailurePrefix(k1);
    assert t[|prefix|..|t| - 1] == p1.GetOr(NoErrorMessage);
    assert t[|prefix|..|t| - 1] == p2.GetOr(NoErrorMessage);
  }

  /** The warning block written for a failure. */
  function WarningOf(f: Failure): (m: Message) {
    Warning(FailureText(f.kind, f.payload))
  }

  // ---------------------------------------------------------------------
  // What a run of a plan does, step by step
  // ---------------------------------------------------------------------

  /** The failures one step records: one when it raised KubernetesAPIException, none otherwise. */
  function StepFailures(d: Descriptor, outcome: StepOutcome): (fs: seq<Failure>)
    ensures |fs| <= 1
  {
    match outcome
    case ApiError(payload) => [Failure(d.kind, payload)]
    case _ => []
  }

  /** The number of steps of `plan` that completed under `oracle`. */
  function CountDeleted(plan: seq<Descriptor>, oracle: Descriptor -> StepOutcome): (n: nat)
    ensures n <= |plan|
  {
    if plan == [] then 0
    else
      var last := plan[|plan| - 1];
      CountDeleted(plan[..|plan| - 1], oracle) + (if oracle(last).Deleted? then 1 else 0)
  }

  /** The failures the steps of `plan` record under `oracle`, in plan order. */
  function Failures(plan: seq<Descriptor>, oracle: Descriptor -> StepOutcome): (fs: seq<Failure>)
    ensures |fs| <= |plan|
  {
    if plan == [] then []
    else
      var last := plan[|plan| - 1];
      Failures(plan[..|plan| - 1], oracle) + StepFailures(last, oracle(last))
  }

  /** The warning blocks for a sequence of failures, in order. */
  function Render(fs: seq<Failure>): (w: seq<Message>)
    ensures |w| == |fs|
  {
    if fs == [] then [] else Render(fs[..|fs| - 1]) + [WarningOf(fs[|fs| - 1])]
  }

  /** The k-th warning block is the rendering of the k-th failure. */
  lemma {:induction false} RenderAt(fs: seq<Failure>, k: int)
    requires 0 <= k < |fs|
    ensures Render(fs)[k] == WarningOf(fs[k])
  {
    if k < |fs| - 1 {
      RenderAt(fs[..|fs| - 1], k);
    }
  }

  /** A failed step writes exactly its own warning; any other step writes nothing. */
  lemma StepWarnings(d: Descriptor, outcome: StepOutcome)
    ensures outcome.ApiError? ==>
      Render(StepFailures(d, outcome)) == [Warning(FailureText(d.kind, outcome.payload))]
    ensures !outcome.ApiError? ==> Render(StepFailures(d, outcome)) == []
  {
  }

  /** The warnings the steps of `plan` write under `oracle`, in plan order. */
  function Warnings(plan: seq<Descriptor>, oracle: Descriptor -> StepOutcome): (w: seq<Message>)
    ensures |w| <= |plan|
  {
    Render(Failures(plan, oracle))
  }

  // Sequence facts, stated over any element type so that their proofs never
  // see the strings inside descriptors and messages.

  /** Extending a prefix by one element. */
  lemma PrefixSnoc<T>(s: seq<T>, i: int)
    requires 0 <= i < |s|
    ensures s[..i + 1] == s[..i] + [s[i]]
  {
  }

  /** Dropping the element just added gives back the sequence. */
  lemma SnocPrefix<T>(s: seq<T>, x: T)
    ensures (s + [x])[..|s|] == s
  {
  }

  /** A non-empty `b` is its initial part followed by its last element, also after `a`. */
  lemma SplitLast<T>(a: seq<T>, b: seq<T>)
    requires b != []
    ensures b == b[..|b| - 1] + [b[|b| - 1]]
    ensures a + b == (a + b[..|b| - 1]) + [b[|b| - 1]]
  {
  }

  /** Concatenation is associative and has the empty sequence as right unit. */
  lemma AppendFacts<T>(a: seq<T>, b: seq<T>, c: seq<T>)
    ensures a + [] == a
    ensures a + (b + c) == (a + b) + c
  {
  }

  /** Running one more step adds one to the counter exactly when that step completes. */
  lemma CountSnoc(plan: seq<Descriptor>, d: Descriptor, oracle: Descriptor -> StepOutcome)
    ensures CountDeleted(plan + [d], oracle) == CountDeleted(plan, oracle) + (if oracle(d).Deleted? then 1 else 0)
  {
    SnocPrefix(plan, d);
  }

  /** Running one more step records that step's failures after the earlier ones. */
  lemma FailuresSnoc(plan: seq<Descriptor>, d: Descriptor, oracle: Descriptor -> StepOutcome)
    ensures Failures(plan + [d], oracle) == Failures(plan, oracle) + StepFailures(d, oracle(d))
  {
    SnocPrefix(plan, d);
  }

  /** Rendering one more failure adds its warning block at the end. */
  lemma RenderSnoc(fs: seq<Failure>, f: Failure)
    ensures Render(fs + [f]) == Render(fs) + [WarningOf(f)]
  {
    SnocPrefix(fs, f);
  }

  /** Running one more step appends that step's warnings to the earlier ones. */
  lemma WarningsSnoc(plan: seq<Descriptor>, d: Descriptor, oracle: Descriptor -> StepOutcome)
    ensures Warnings(plan + [d], oracle) == Warnings(plan, oracle) + Render(StepFailures(d, oracle(d)))
  {
    FailuresSnoc(plan, d, oracle);
    RenderAppend(Failures(plan, oracle), StepFailures(d, oracle(d)));
  }

  /** Rendering distributes over concatenation. */
  lemma {:induction false} RenderAppend(a: seq<Failure>, b: seq<Failure>)
    ensures Render(a + b) == Render(a) + Render(b)
  {
    if b == [] {
      AppendFacts(a, b, b);
      AppendFacts(Render(a), [], []);
    } else {
      var init, f := b[..|b| - 1], b[|b| - 1];
      SplitLast(a, b);
      RenderAppend(a, init);
      RenderSnoc(a + init, f);
      RenderSnoc(init, f);
      AppendFacts(Render(a), Render(init), [WarningOf(f)]);
    }
  }

  /** The counter of two plans run one after the other is the sum of their counters. */
  lemma {:induction false} CountAppend(a: seq<Descriptor>, b: seq<Descriptor>, oracle: Descriptor -> StepOutcome)
    ensures CountDeleted(a + b, oracle) == CountDeleted(a, oracle) + CountDeleted(b, oracle)
  {
    if b == [] {
      AppendFacts(a, b, b);
    } else {
      var init, d := b[..|b| - 1], b[|b| - 1];
      SplitLast(a, b);
      CountAppend(a, init, oracle);
      CountSnoc(a + init, d, oracle);
      CountSnoc(init, d, oracle);
    }
  }

  /** The failures of two plans run one after the other are the first's followed by the second's. */
  lemma {:induction false} FailuresAppend(a: seq<Descriptor>, b: seq<Descriptor>, oracle: Descriptor -> StepOutcome)
    ensures Failures(a + b, oracle) == Failures(a, oracle) + Failures(b, oracle)
  {
    if b == [] {
      AppendFacts(a, b, b);
      AppendFacts(Failures(a, oracle), [], []);
    } else {
      var init, d := b[..|b| - 1], b[|b| - 1];
      SplitLast(a, b);
      FailuresAppend(a, init, oracle);
      FailuresSnoc(a + init, d, oracle);
      FailuresSnoc(init, d, oracle);
      AppendFacts(Failures(a, oracle), Failures(init, oracle), StepFailures(d, oracle(d)));
    }
  }

  /**
   * What one step adds to the run it sits in: a completed step adds one to
   * the counter and records no failure, a stopped step adds nothing and
   * records nothing, and a failed step adds nothing and records exactly its
   * own failure, hence exactly one warning. The steps after it run either way.
   */
  lemma {:induction false} StepContribution(before: seq<Descriptor>, d: Descriptor, after: seq<Descriptor>, oracle: Descriptor -> StepOutcome)
    ensures var plan := before + [d] + after;
      match oracle(d)
      case Deleted =>
        CountDeleted(plan, oracle) == CountDeleted(before, oracle) + 1 + CountDeleted(after, oracle) &&
        Failures(plan, oracle) == Failures(before, oracle) + Failures(after, oracle)
      case Stopped =>
        CountDeleted(plan, oracle) == CountDeleted(before, oracle) + CountDeleted(after, oracle) &&
        Failures(plan, oracle) == Failures(before, oracle) + Failures(after, oracle)
      case ApiError(payload) =>
        CountDeleted(plan, oracle) == CountDeleted(before, oracle) + CountDeleted(after, oracle) &&
        Failures(plan, oracle) == Failures(before, oracle) + [Failure(d.kind, payload)] + Failures(after, oracle)
  {
    CountSnoc(before, d, oracle);
    FailuresSnoc(before, d, oracle);
    CountAppend(before + [d], after, oracle);
    FailuresAppend(before + [d], after, oracle);
  }

  /** Oracles that agree on every step of a plan give the same counter and failures. */
  lemma {:induction false} AgreeingOracles(plan: seq<Descriptor>, o1: Descriptor -> StepOutcome, o2: Descriptor -> StepOutcome)
    requires forall j :: 0 <= j < |plan| ==> o1(plan[j]) == o2(plan[j])
    ensures CountDeleted(plan, o1) == CountDeleted(plan, o2)
    ensures Failures(plan, o1) == Failures(plan, o2)
  {
    if plan != [] {
      var init := plan[..|plan| - 1];
      assert forall j :: 0 <= j < |init| ==> init[j] == plan[j];
      AgreeingOracles(init, o1, o2);
    }
  }

  /**
   * Isolation: what the later steps `after` contribute does not depend on how
   * the earlier steps `before` ended. Any oracle `o2` that agrees with `o1`
   * on the later steps yields the same later contribution.
   */
  lemma LaterStepsIsolated(before: seq<Descriptor>, after: seq<Descriptor>, o1: Descriptor -> StepOutcome, o2: Descriptor -> StepOutcome)
    requires forall j :: 0 <= j < |after| ==> o1(after[j]) == o2(after[j])
    ensures CountDeleted(before + after, o1) == CountDeleted(before, o1) + CountDeleted(after, o2)
    ensures Warnings(before + after, o1) == Warnings(before, o1) + Warnings(after, o2)
  {
    CountAppend(before, after, o1);
    FailuresAppend(before, after, o1);
    AgreeingOracles(after, o1, o2);
    RenderAppend(Failures(before, o1), Failures(after, o2));
  }

  // ---------------------------------------------------------------------
  // Counting: the counter and the warnings against the steps' outcomes
  // ---------------------------------------------------------------------

  /** Positions of the steps that completed. */
  ghost function DeletedSteps(plan: seq<Descriptor>, oracle: Descriptor -> StepOutcome): set<int> {
    set i | 0 <= i < |plan| && oracle(plan[i]).Deleted?
  }

  /** Positions of the steps that raised KubernetesAPIException. */
  ghost function FailedSteps(plan: seq<Descriptor>, oracle: Descriptor -> StepOutcome): set<int> {
    set i | 0 <= i < |plan| && oracle(plan[i]).ApiError?
  }

  /** The counter is the number of steps whose outcome is Deleted. */
  lemma {:induction false} CountIsDeletedSteps(plan: seq<Descriptor>, oracle: Descriptor -> StepOutcome)
    ensures CountDeleted(plan, oracle) == |DeletedSteps(plan, oracle)|
  {
    if plan != [] {
      var last := |plan| - 1;
      var init := plan[..last];
      CountIsDeletedSteps(init, oracle);
      assert DeletedSteps(plan, oracle) ==
        DeletedSteps(init, oracle) + (if oracle(plan[last]).Deleted? then {last} else {});
    }
  }

  /** Exactly one failure, hence one warning, is recorded per step that raised KubernetesAPIException. */
  lemma {:induction false} FailureCountIsFailedSteps(plan: seq<Descriptor>, oracle: Descriptor -> StepOutcome)
    ensures |Failures(plan, oracle)| == |FailedSteps(plan, oracle)|
  {
    if plan != [] {
      var last := |plan| - 1;
      var init := plan[..last];
      FailureCountIsFailedSteps(init, oracle);
      assert FailedSteps(plan, oracle) ==
        FailedSteps(init, oracle) + (if oracle(plan[last]).ApiError? then {last} else {});
    }
  }

  /** A failure is recorded exactly when some step of its kind raised KubernetesAPIException with its payload. */
  lemma {:induction false} FailuresAreFailedSteps(plan: seq<Descriptor>, oracle: Descriptor -> StepOutcome, f: Failure)
    ensures f in Failures(plan, oracle) <==>
      exists i :: 0 <= i < |plan| && plan[i].kind == f.kind && oracle(plan[i]) == ApiError(f.payload)
  {
    if plan != [] {
      var last := |plan| - 1;
      var init := plan[..last];
      FailuresAreFailedSteps(init, oracle, f);
      if f in Failures(plan, oracle) && f in Failures(init, oracle) {
        var i :| 0 <= i < |init| && init[i].kind == f.kind && oracle(init[i]) == ApiError(f.payload);
        assert plan[i] == init[i];
      }
      if exists i :: 0 <= i < |plan| && plan[i].kind == f.kind && oracle(plan[i]) == ApiError(f.payload) {
        var i :| 0 <= i < |plan| && plan[i].kind == f.kind && oracle(plan[i]) == ApiError(f.payload);
        if i < last {
          assert init[i] == plan[i];
        }
      }
    }
  }

  /** Every step completed exactly when the counter reaches the plan length, and none did exactly when it stays 0. */
  lemma {:induction false} CountExtremes(plan: seq<Descriptor>, oracle: Descriptor -> StepOutcome)
    ensures CountDeleted(plan, oracle) == |plan| <==> forall i :: 0 <= i < |plan| ==> oracle(plan[i]).Deleted?
    ensures CountDeleted(plan, oracle) == 0 <==> forall i :: 0 <= i < |plan| ==> !oracle(plan[i]).Deleted?
  {
    if plan != [] {
      var init := plan[..|plan| - 1];
      CountExtremes(init, oracle);
      assert forall i :: 0 <= i < |init| ==> init[i] == plan[i];
    }
  }

  // ---------------------------------------------------------------------
  // Grading
  // ---------------------------------------------------------------------

  /** The number a string of decimal digits denotes, most significant digit first. */
  function DigitsValue(s: string): nat {
    if s == [] then 0
    else
      var d := s[|s| - 1] as int - 48;
      DigitsValue(s[..|s| - 1]) * 10 + (if 0 <= d then d else 0)
  }

  /** PHP's decimal rendering of a non-negative integer. */
  function DecimalString(n: nat): (s: string)
    ensures |s| >= 1
    ensures forall k :: 0 <= k < |s| ==> '0' <= s[k] <= '9'
    ensures DigitsValue(s) == n
  {
    var digit := [(48 + n % 10) as char];
    if n < 10 then digit
    else
      var rest := DecimalString(n / 10);
      assert (rest + digit)[..|rest|] == rest;
      rest + digit
  }

  /** The error text for a partial run: "Only N resource(s) (out of 3) has/have been deleted successfully." */
  function PartialText(counter: nat): (text: string) {
    var single := counter == 1;
    "Only " + DecimalString(counter) + " resource" + (if single then "" else "s") +
    " (out of 3) " + (if single then "has" else "have") + " been deleted successfully."
  }

  /** A prefix of `b` stays a prefix of `b` extended by `c`. */
  lemma PrefixOfAppend<T>(a: seq<T>, b: seq<T>, c: seq<T>)
    requires a <= b
    ensures a <= b + c
  {
  }

  /** The error sentence starts with "Only " and the decimal counter, which denotes the counter. */
  lemma PartialTextCarriesCount(counter: nat)
    ensures var count := DecimalString(counter);
      "Only " + count <= PartialText(counter) &&
      PartialText(counter)[5..5 + |count|] == count && DigitsValue(count) == counter
  {
    var single := counter == 1;
    var t0 := "Only " + DecimalString(counter);
    var t1 := t0 + " resource";
    var t2 := t1 + (if single then "" else "s");
    var t3 := t2 + " (out of 3) ";
    var t4 := t3 + (if single then "has" else "have");
    PrefixOfAppend(t0, t0, " resource");
    PrefixOfAppend(t0, t1, if single then "" else "s");
    PrefixOfAppend(t0, t2, " (out of 3) ");
    PrefixOfAppend(t0, t3, if single then "has" else "have");
    PrefixOfAppend(t0, t4, " been deleted successfully.");
    assert t0[5..] == DecimalString(counter);
  }

  /** A number below ten is written as its single digit. */
  lemma SingleDigit(n: nat)
    requires n < 10
    ensures DecimalString(n) == [(48 + n) as char]
  {
  }

  // One concatenation each, so that no single proof compares long literals twice.
  lemma SingularNoun() ensures "Only 1" + " resource" == "Only 1 resource" {}
  lemma SingularCount() ensures "Only 1 resource" + " (out of 3) " == "Only 1 resource (out of 3) " {}
  lemma SingularVerb() ensures "Only 1 resource (out of 3) " + "has" == "Only 1 resource (out of 3) has" {}
  lemma SingularTail()
    ensures "Only 1 resource (out of 3) has" + " been deleted successfully." ==
      "Only 1 resource (out of 3) has been deleted successfully."
  {}
  lemma PluralNoun() ensures "Only 2 resource" + "s" == "Only 2 resources" {}
  lemma PluralCount() ensures "Only 2 resources" + " (out of 3) " == "Only 2 resources (out of 3) " {}
  lemma PluralVerb() ensures "Only 2 resources (out of 3) " + "have" == "Only 2 resources (out of 3) have" {}
  lemma PluralTail()
    ensures "Only 2 resources (out of 3) have" + " been deleted successfully." ==
      "Only 2 resources (out of 3) have been deleted successfully."
  {}

  /** One deleted resource: the error uses the singular noun and "has". */
  lemma SingularText()
    ensures PartialText(1) == "Only 1 resource (out of 3) has been deleted successfully."
  {
    SingleDigit(1);
    assert "Only " + "1" == "Only 1";
    SingularNoun();
    assert "Only 1 resource" + "" == "Only 1 resource";
    SingularCount();
    SingularVerb();
    SingularTail();
  }

  /** Two deleted resources: the error uses the plural noun and "have". */
  lemma PluralText()
    ensures PartialText(2) == "Only 2 resources (out of 3) have been deleted successfully."
  {
    SingleDigit(2);
    assert "Only " + "2" == "Only 2";
    assert "Only 2" + " resource" == "Only 2 resource";
    PluralNoun();
    PluralCount();
    PluralVerb();
    PluralTail();
  }

  /** The grading of a run by its counter alone: exit status and closing block. */
  function Grade(account: string, counter: nat): (v: Verdict)
    ensures v.code != ExitFailure
    ensures v.code == ExitSuccess <==> counter >= 3
    ensures counter == 0 ==> v.summary == Warning("No resource has been deleted.")
    ensures 0 < counter < 3 ==> v.summary == Error(PartialText(counter))
    ensures counter >= 3 ==> v.summary == Success("Service account \"" + account + "\" deleted successfully!")
  {
    if counter < 1 then
      Verdict(ExitInvalid, Warning("No resource has been deleted."))
    else if counter < 3 then
      Verdict(ExitInvalid, Error(PartialText(counter)))
    else
      Verdict(ExitSuccess, Success("Service account \"" + account + "\" deleted successfully!"))
  }

  /** The command succeeds exactly when all three steps of the plan completed. */
  lemma SuccessIffAllDeleted(account: string, namespace: string, oracle: Descriptor -> StepOutcome)
    ensures var plan := Plan(account, namespace);
      Grade(account, CountDeleted(plan, oracle)).code == ExitSuccess <==>
      forall i :: 0 <= i < |plan| ==> oracle(plan[i]).Deleted?
  {
    CountExtremes(Plan(account, namespace), oracle);
  }

  // ---------------------------------------------------------------------
  // The command
  // ---------------------------------------------------------------------

  /**
   * One try/catch block of the command: how the outcome of a step changes
   * the counter and the output.
   */
  method RunStep(step: Descriptor, outcome: StepOutcome, counter: nat, log: seq<Message>)
    returns (counter': nat, log': seq<Message>)
    ensures counter' == counter + (if outcome.Deleted? then 1 else 0)
    ensures log' == log + Render(StepFailures(step, outcome))
  {
    counter', log' := counter, log;
    match outcome {
      case Deleted =>
        counter' := counter + 1;
      case Stopped =>
      case ApiError(payload) =>
        log' := log + [WarningOf(Failure(step.kind, payload))];
    }
  }

  /** The three try/catch blocks in turn: every step of `plan` is attempted, in order. */
  method RunPlan(plan: seq<Descriptor>, oracle: Descriptor -> StepOutcome)
    returns (attempted: seq<Descriptor>, counter: nat, log: seq<Message>)
    ensures attempted == plan
    ensures counter == CountDeleted(plan, oracle)
    ensures log == Warnings(plan, oracle)
  {
    attempted, counter, log := [], 0, [];
    var i := 0;
    while i < |plan|
      invariant 0 <= i <= |plan|
      invariant attempted == plan[..i]
      invariant counter == CountDeleted(attempted, oracle)
      invariant log == Warnings(attempted, oracle)
    {
      var step := plan[i];
      var outcome := oracle(step);
      counter, log := RunStep(step, outcome, counter, log);
      CountSnoc(attempted, step, oracle);
      WarningsSnoc(attempted, step, oracle);
      PrefixSnoc(plan, i);
      attempted := attempted + [step];
      i := i + 1;
    }
  }

  /**
   * Runs the command for service account `account` in `namespace`.
   * `oracle` stands for the cluster lookups and `deleteOrStop`: it tells how
   * each step ends. Returns the steps attempted, the final counter, every
   * block written, and the exit status.
   */
  method Execute(account: string, namespace: string, oracle: Descriptor -> StepOutcome)
    returns (attempted: seq<Descriptor>, counter: nat, log: seq<Message>, exit: ExitCode)
    ensures attempted == [ Descriptor(RoleBinding, account + "-role-binding", namespace),
                           Descriptor(Role, account + "-role", namespace),
                           Descriptor(ServiceAccount, account, namespace) ]
    ensures counter == CountDeleted(attempted, oracle)
    ensures log == Warnings(attempted, oracle) + [Grade(account, counter).summary]
    ensures exit == Grade(account, counter).code
  {
    var warnings;
    attempted, counter, warnings := RunPlan(Plan(account, namespace), oracle);
    var verdict := Grade(account, counter);
    log := warnings + [verdict.summary];
    exit := verdict.code;
  }
}
