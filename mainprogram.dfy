/** `main.go`: the full command line (ten commands) and its `cleanup`, which deletes every pod
    that is not Running. */
module MainProgram {
  import opened GoStd
  import opened Kube
  import opened CliArgs

  /** The parsed command-line flags, as `flag.Parse` leaves them. */
  datatype Flags = Flags(
    cleanup: bool,
    list: bool,
    showSecrets: bool,
    showEvents: bool,
    describePod: string,
    namespace: string,
    editReplicas: string,
    ingressName: string,
    editIngress: bool,
    editDeployment: string,
    describeDeployment: string,
    viewLogs: bool,
    pod: string,
    container: string)

  /** Every flag at its declared default; `-namespace` defaults to `default`. */
  const Defaults: Flags := Flags(false, false, false, false, "", "default", "", "", false, "", "", false, "", "")

  /** Whether the client could be built from the kubeconfig before any command runs. */
  datatype ClientSetup = Ready | ConfigFailed | ClientFailed

  /** The arm of the if/else-if chain that was taken; `NoClient` when the program stopped
      before reaching the chain. */
  datatype Branch =
    | CleanupFlag | ListFlag | ShowSecretsFlag | ShowEventsFlag | DescribePodFlag | EditReplicasFlag
    | EditIngressFlag | EditDeploymentFlag | DescribeDeploymentFlag | ViewLogsFlag | NoFlag | NoClient
  {
    /** Position in the chain. */
    function Rank(): nat
    {
      match this
      case CleanupFlag => 0
      case ListFlag => 1
      case ShowSecretsFlag => 2
      case ShowEventsFlag => 3
      case DescribePodFlag => 4
      case EditReplicasFlag => 5
      case EditIngressFlag => 6
      case EditDeploymentFlag => 7
      case DescribeDeploymentFlag => 8
      case ViewLogsFlag => 9
      case NoFlag => 10
      case NoClient => 11
    }
  }

  /** What `main` ends up doing: one command with its arguments, a message and exit status 1,
      a message with normal exit, or the usage text. */
  datatype Action =
    | Cleanup
    | ListPods
    | ShowSecrets
    | ShowEvents
    | DescribePod(podName: string, namespace: string)
    | EditReplicas(param: string)
    | EditIngress(namespace: string, ingressName: string)
    | EditDeployment(namespace: string, name: string)
    | DescribeDeployment(namespace: string, name: string)
    | ViewPodLogs(namespace: string, pod: string, container: string)
    | Complain(message: string)
    | Exit(code: int, message: string)
    | Usage

  datatype Decision = Decision(branch: Branch, action: Action)

  /** The command flags in the order the chain tests them. */
  function Requested(f: Flags): seq<bool>
  {
    [f.cleanup, f.list, f.showSecrets, f.showEvents, f.describePod != "", f.editReplicas != "",
     f.editIngress, f.editDeployment != "", f.describeDeployment != "", f.viewLogs]
  }

  /** `main` after `flag.Parse`: build the client, then take the first arm of the chain whose
      flag is set. */
  function Dispatch(f: Flags, setup: ClientSetup): (d: Decision)
    ensures setup == Ready ==> d.branch != NoClient
    ensures setup != Ready ==> d.branch == NoClient && d.action.Exit? && d.action.code == 1
    ensures d.action.Exit? ==> d.action.code == 1 && (d.branch == NoClient || d.branch == EditIngressFlag || d.branch == EditDeploymentFlag || d.branch == ViewLogsFlag)
    ensures d.branch == NoFlag ==> d.action == Usage
  {
    if setup.ConfigFailed? then Decision(NoClient, Exit(1, "Error creating Kubernetes config:"))
    else if setup.ClientFailed? then Decision(NoClient, Exit(1, "Error creating Kubernetes client:"))
    else if f.cleanup then Decision(CleanupFlag, Cleanup)
    else if f.list then Decision(ListFlag, Action.ListPods)
    else if f.showSecrets then Decision(ShowSecretsFlag, ShowSecrets)
    else if f.showEvents then Decision(ShowEventsFlag, ShowEvents)
    else if f.describePod != "" then Decision(DescribePodFlag, DescribePod(f.describePod, f.namespace))
    else if f.editReplicas != "" then Decision(EditReplicasFlag, EditReplicas(f.editReplicas))
    else if f.editIngress then
      if f.ingressName == "" then Decision(EditIngressFlag, Exit(1, "Please provide the ingress name using --ingressname flag"))
      else Decision(EditIngressFlag, EditIngress(f.namespace, f.ingressName))
    else if f.editDeployment != "" then
      match ParseNamespacedName(f.editDeployment)
      case None => Decision(EditDeploymentFlag, Exit(1, "Invalid format for editdeployment flag. Use namespace/deployment"))
      case Some(key) => Decision(EditDeploymentFlag, EditDeployment(key.namespace, key.name))
    else if f.describeDeployment != "" then
      match ParseNamespacedName(f.describeDeployment)
      case None => Decision(DescribeDeploymentFlag, Complain("Invalid format for describedeployment flag. Use namespace/deployment"))
      case Some(key) => Decision(DescribeDeploymentFlag, DescribeDeployment(key.namespace, key.name))
    else if f.viewLogs then
      if f.pod == "" then Decision(ViewLogsFlag, Exit(1, "Error: --pod flag is required for viewing logs"))
      else Decision(ViewLogsFlag, ViewPodLogs(f.namespace, f.pod, f.container))
    else Decision(NoFlag, Usage)
  }

  /** The chain is a strict priority order: the arm taken is the first whose flag is set, and
      every flag after it is ignored. */
  lemma {:induction false} DispatchFollowsPriority(f: Flags)
    ensures Dispatch(f, Ready).branch.Rank() == FirstSet(Requested(f))
  {
    FirstSetAt(Requested(f), Dispatch(f, Ready).branch.Rank());
  }

  /** Each of the first six arms runs its own command, with the arguments its flags give. */
  lemma DispatchRunsCommand(f: Flags)
    ensures var d := Dispatch(f, Ready);
      (d.branch == CleanupFlag ==> d.action == Cleanup) &&
      (d.branch == ListFlag ==> d.action == Action.ListPods) &&
      (d.branch == ShowSecretsFlag ==> d.action == ShowSecrets) &&
      (d.branch == ShowEventsFlag ==> d.action == ShowEvents) &&
      (d.branch == DescribePodFlag ==> d.action == DescribePod(f.describePod, f.namespace)) &&
      (d.branch == EditReplicasFlag ==> d.action == EditReplicas(f.editReplicas))
  {
  }

  /** With no command flag set, `main` prints the usage text. */
  lemma UsageWhenNothingRequested(f: Flags)
    requires forall i :: 0 <= i < |Requested(f)| ==> !Requested(f)[i]
    ensures Dispatch(f, Ready).action == Usage
  {
    DispatchFollowsPriority(f);
  }

  /** Run with no flags at all, the program prints its usage text. */
  lemma DefaultsPrintUsage()
    ensures Dispatch(Defaults, Ready) == Decision(NoFlag, Usage)
  {
    UsageWhenNothingRequested(Defaults);
  }

  /** `-editingress` without `-ingressname` exits with status 1 and never starts the edit;
      with a name, it edits that ingress in `-namespace`. */
  lemma EditIngressNeedsName(f: Flags)
    requires Dispatch(f, Ready).branch == EditIngressFlag
    ensures f.ingressName == "" <==> Dispatch(f, Ready).action.Exit?
    ensures f.ingressName != "" ==> Dispatch(f, Ready).action == EditIngress(f.namespace, f.ingressName)
  {
  }

  /** `-editdeployment` runs only on a value with exactly one `/`, split into (namespace,
      name); anything else exits with status 1. */
  lemma EditDeploymentShape(f: Flags)
    requires Dispatch(f, Ready).branch == EditDeploymentFlag
    ensures Dispatch(f, Ready).action.EditDeployment? <==> Count(f.editDeployment, '/') == 1
    ensures Dispatch(f, Ready).action.EditDeployment? ==>
      f.editDeployment == Dispatch(f, Ready).action.namespace + "/" + Dispatch(f, Ready).action.name
    ensures !Dispatch(f, Ready).action.EditDeployment? ==> Dispatch(f, Ready).action.Exit?
  {
  }

  /** `-describedeployment` takes the same shape, but a bad value only prints a message: the
      program does not exit with an error. */
  lemma DescribeDeploymentNeverExits(f: Flags)
    requires Dispatch(f, Ready).branch == DescribeDeploymentFlag
    ensures Dispatch(f, Ready).action.DescribeDeployment? <==> Count(f.describeDeployment, '/') == 1
    ensures Dispatch(f, Ready).action.DescribeDeployment? ==>
      f.describeDeployment == Dispatch(f, Ready).action.namespace + "/" + Dispatch(f, Ready).action.name
    ensures !Dispatch(f, Ready).action.DescribeDeployment? ==> Dispatch(f, Ready).action.Complain?
  {
  }

  /** `-viewlogs` needs `-pod`. */
  lemma ViewLogsNeedsPod(f: Flags)
    requires Dispatch(f, Ready).branch == ViewLogsFlag
    ensures f.pod == "" <==> Dispatch(f, Ready).action.Exit?
    ensures f.pod != "" ==> Dispatch(f, Ready).action == ViewPodLogs(f.namespace, f.pod, f.container)
  {
  }

  // -----------------------------------------------------------------------------------------
  // cleanup

  /** The pods `cleanup` deletes, in list order: every one whose phase is not `Running`. */
  function NotRunning(items: seq<Pod>): (r: seq<Pod>)
    ensures |r| <= |items|
  {
    if items == [] then []
    else NotRunning(items[..|items| - 1]) + (if items[|items| - 1].phase != "Running" then [items[|items| - 1]] else [])
  }

  /** A pod is picked exactly when it is listed and not Running. */
  lemma {:induction false} NotRunningSelects(items: seq<Pod>)
    ensures forall p :: p in NotRunning(items) <==> p in items && p.phase != "Running"
  {
    if items != [] {
      var init := items[..|items| - 1];
      NotRunningSelects(init);
      assert items == init + [items[|items| - 1]];
    }
  }

  /** The selection keeps list order: it distributes over concatenation. */
  lemma {:induction false} NotRunningAppend(a: seq<Pod>, b: seq<Pod>)
    ensures NotRunning(a + b) == NotRunning(a) + NotRunning(b)
  {
    if b != [] {
      var init := b[..|b| - 1];
      NotRunningAppend(a, init);
      assert (a + b)[..|a + b| - 1] == a + init;
    } else {
      assert a + b == a;
    }
  }

  /** Each listed pod is picked at most once: the selection is a sub-multiset of the list, so
      `cleanup` never sends two deletes for one list entry. */
  lemma {:induction false} NotRunningAtMostOnce(items: seq<Pod>)
    ensures multiset(NotRunning(items)) <= multiset(items)
  {
    if items != [] {
      var init := items[..|items| - 1];
      NotRunningAtMostOnce(init);
      assert items == init + [items[|items| - 1]];
    }
  }

  /** Taking one more list item selects it or not. */
  lemma NotRunningStep(items: seq<Pod>, i: nat)
    requires i < |items|
    ensures NotRunning(items[..i + 1]) == NotRunning(items[..i]) + (if items[i].phase != "Running" then [items[i]] else [])
  {
    assert items[..i + 1][..i] == items[..i];
  }

  /** How `cleanup` ended: it went through the list, or listing failed and the program
      exited. */
  datatype CleanupOutcome = Swept | ListFailed(exitCode: int)

  /** The loop of `cleanup`: delete every listed pod that is not `Running`, in list order. */
  method SweepAll(c: Cluster, items: seq<Pod>, refused: set<ObjectKey>)
    requires c.Valid()
    modifies c`log, c`pods
    ensures c.Valid()
    ensures c.log == old(c.log) + DeleteCalls(NotRunning(items))
    ensures c.pods == old(c.pods) - DeletedKeys(NotRunning(items), refused)
  {
    for i := 0 to |items|
      invariant c.Valid()
      invariant c.log == old(c.log) + DeleteCalls(NotRunning(items[..i]))
      invariant c.pods == old(c.pods) - DeletedKeys(NotRunning(items[..i]), refused)
    {
      var pod := items[i];
      ghost var log, pods := c.log, c.pods;
      if pod.phase != "Running" {
        var deleted := c.DeletePod(pod.Key(), refused);
      }
      NotRunningStep(items, i);
      SweepStep(old(c.log), old(c.pods), NotRunning(items[..i]), pod, pod.phase != "Running", refused, log, pods, c.log, c.pods);
    }
    assert items[..|items|] == items;
  }

  /** `cleanup`: list every pod, then try to delete each one that is not Running. A failed
      delete is reported and the loop goes on; Running pods are never touched. */
  method RunCleanup(c: Cluster, listed: Result<seq<Pod>, ApiError>, refused: set<ObjectKey>) returns (outcome: CleanupOutcome)
    requires c.Valid()
    modifies c`log, c`pods
    ensures c.Valid()
    ensures listed.Err? ==> outcome == ListFailed(1) && c.log == old(c.log) + [Call.ListPods] && c.pods == old(c.pods)
    ensures listed.Ok? ==>
      outcome == Swept &&
      c.log == old(c.log) + [Call.ListPods] + DeleteCalls(NotRunning(listed.value)) &&
      c.pods == old(c.pods) - DeletedKeys(NotRunning(listed.value), refused)
  {
    c.ListPods();
    if listed.Err? {
      return ListFailed(1);
    }
    SweepAll(c, listed.value, refused);
    outcome := Swept;
  }

  /** A Running pod whose key no non-Running listed pod shares is still there after
      `cleanup`. */
  lemma RunningPodsSurvive(items: seq<Pod>, refused: set<ObjectKey>, p: Pod)
    requires p in items && p.phase == "Running"
    requires forall q :: q in items && q.Key() == p.Key() ==> q.phase == "Running"
    ensures p.Key() !in DeletedKeys(NotRunning(items), refused)
  {
    NotRunningSelects(items);
  }
}
