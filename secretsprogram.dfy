/** `Secrets.go`: the smaller command line (eight commands) and its `cleanup`, which deletes
    every pod with a container stuck in `ImagePullBackOff`. */
module SecretsProgram {
  import opened GoStd
  import opened Kube
  import opened CliArgs

  /** The parsed command-line flags. */
  datatype Flags = Flags(
    cleanup: bool,
    list: bool,
    showSecrets: bool,
    showEvents: bool,
    describePod: string,
    namespace: string,
    editReplicas: string,
    ingressName: string,
    editIngress: bool,
    editDeployment: string)

  /** Every flag at its declared default; `-namespace` defaults to `default`. */
  const Defaults: Flags := Flags(false, false, false, false, "", "default", "", "", false, "")

  datatype ClientSetup = Ready | ConfigFailed | ClientFailed

  /** The arm of the if/else-if chain that was taken; `NoClient` when the program stopped
      before reaching the chain. */
  datatype Branch =
    | CleanupFlag | ListFlag | ShowSecretsFlag | ShowEventsFlag | DescribePodFlag | EditReplicasFlag
    | EditIngressFlag | EditDeploymentFlag | NoFlag | NoClient
  {
    /** Position in the chain. */
    function Rank(): nat
    {
      match this
      case CleanupFlag => 0
      case ListFlag => 1
      case ShowSecretsFlag => 2
      case ShowEventsFlag => 3
      case DescribePodFlag => 4
      case EditReplicasFlag => 5
      case EditIngressFlag => 6
      case EditDeploymentFlag => 7
      case NoFlag => 8
      case NoClient => 9
    }
  }

  /** What `main` ends up doing. */
  datatype Action =
    | Cleanup
    | ListPods
    | ShowSecrets
    | ShowEvents
    | DescribePod(podName: string, namespace: string)
    | EditReplicas(param: string)
    | EditIngress(namespace: string, ingressName: string)
    | EditDeployment(namespace: string, name: string)
    | Exit(code: int, message: string)
    | Usage

  datatype Decision = Decision(branch: Branch, action: Action)

  /** The command flags in the order the chain tests them. */
  function Requested(f: Flags): seq<bool>
  {
    [f.cleanup, f.list, f.showSecrets, f.showEvents, f.describePod != "", f.editReplicas != "",
     f.editIngress, f.editDeployment != ""]
  }

  /** `main` after `flag.Parse`: build the client, then take the first arm of the chain whose
      flag is set. */
  function Dispatch(f: Flags, setup: ClientSetup): (d: Decision)
    ensures setup == Ready ==> d.branch != NoClient
    ensures setup != Ready ==> d.branch == NoClient && d.action.Exit? && d.action.code == 1
    ensures d.action.Exit? ==> d.action.code == 1 && (d.branch == NoClient || d.branch == EditIngressFlag || d.branch == EditDeploymentFlag)
    ensures d.branch == NoFlag ==> d.action == Usage
  {
    if setup.ConfigFailed? then Decision(NoClient, Exit(1, "Error creating Kubernetes config:"))
    else if setup.ClientFailed? then Decision(NoClient, Exit(1, "Error creating Kubernetes client:"))
    else if f.cleanup then Decision(CleanupFlag, Cleanup)
    else if f.list then Decision(ListFlag, Action.ListPods)
    else if f.showSecrets then Decision(ShowSecretsFlag, ShowSecrets)
    else if f.showEvents then Decision(ShowEventsFlag, ShowEvents)
    else if f.describePod != "" then Decision(DescribePodFlag, DescribePod(f.describePod, f.namespace))
    else if f.editReplicas != "" then Decision(EditReplicasFlag, EditReplicas(f.editReplicas))
    else if f.editIngress then
      if f.ingressName == "" then Decision(EditIngressFlag, Exit(1, "Please provide the ingress name using --ingressname flag"))
      else Decision(EditIngressFlag, EditIngress(f.namespace, f.ingressName))
    else if f.editDeployment != "" then
      match ParseNamespacedName(f.editDeployment)
      case None => Decision(EditDeploymentFlag, Exit(1, "Invalid format for editdeployment flag. Use namespace/deployment"))
      case Some(key) => Decision(EditDeploymentFlag, EditDeployment(key.namespace, key.name))
    else Decision(NoFlag, Usage)
  }

  /** The arm taken is the first whose flag is set. */
  lemma {:induction false} DispatchFollowsPriority(f: Flags)
    ensures Dispatch(f, Ready).branch.Rank() == FirstSet(Requested(f))
  {
    FirstSetAt(Requested(f), Dispatch(f, Ready).branch.Rank());
  }

  /** Each of the first six arms runs its own command, with the arguments its flags give. */
  lemma DispatchRunsCommand(f: Flags)
    ensures var d := Dispatch(f, Ready);
      (d.branch == CleanupFlag ==> d.action == Cleanup) &&
      (d.branch == ListFlag ==> d.action == Action.ListPods) &&
      (d.branch == ShowSecretsFlag ==> d.action == ShowSecrets) &&
      (d.branch == ShowEventsFlag ==> d.action == ShowEvents) &&
      (d.branch == DescribePodFlag ==> d.action == DescribePod(f.describePod, f.namespace)) &&
      (d.branch == EditReplicasFlag ==> d.action == EditReplicas(f.editReplicas))
  {
  }

  /** Run with no flags at all, the program prints its usage text. */
  lemma DefaultsPrintUsage()
    ensures Dispatch(Defaults, Ready) == Decision(NoFlag, Usage)
  {
    DispatchFollowsPriority(Defaults);
  }

  /** `-editingress` needs `-ingressname`. */
  lemma EditIngressNeedsName(f: Flags)
    requires Dispatch(f, Ready).branch == EditIngressFlag
    ensures f.ingressName == "" <==> Dispatch(f, Ready).action.Exit?
    ensures f.ingressName != "" ==> Dispatch(f, Ready).action == EditIngress(f.namespace, f.ingressName)
  {
  }

  /** `-editdeployment` runs only on a value with exactly one `/`. */
  lemma EditDeploymentShape(f: Flags)
    requires Dispatch(f, Ready).branch == EditDeploymentFlag
    ensures Dispatch(f, Ready).action.EditDeployment? <==> Count(f.editDeployment, '/') == 1
    ensures Dispatch(f, Ready).action.EditDeployment? ==>
      f.editDeployment == Dispatch(f, Ready).action.namespace + "/" + Dispatch(f, Ready).action.name
    ensures !Dispatch(f, Ready).action.EditDeployment? ==> Dispatch(f, Ready).action.Exit?
  {
  }

  // -----------------------------------------------------------------------------------------
  // cleanup

  /** A container waiting to start because its image cannot be pulled. */
  predicate ImagePullBackOff(cs: ContainerStatus)
  {
    cs.state.waiting.Some? && cs.state.waiting.value.reason == "ImagePullBackOff"
  }

  /** A pod with at least one such container. */
  predicate Stuck(p: Pod)
  {
    exists k :: 0 <= k < |p.containerStatuses| && ImagePullBackOff(p.containerStatuses[k])
  }

  /** The pods `cleanup` deletes, in list order, each listed pod at most once. */
  function BackedOff(items: seq<Pod>): (r: seq<Pod>)
    ensures |r| <= |items|
  {
    if items == [] then []
    else
      var init := items[..|items| - 1];
      BackedOff(init) + (if Stuck(items[|items| - 1]) then [items[|items| - 1]] else [])
  }

  /** A pod is picked exactly when it is listed and stuck. */
  lemma {:induction false} BackedOffSelects(items: seq<Pod>)
    ensures forall p :: p in BackedOff(items) <==> p in items && Stuck(p)
  {
    if items != [] {
      var init := items[..|items| - 1];
      BackedOffSelects(init);
      assert items == init + [items[|items| - 1]];
    }
  }

  /** Each listed pod is picked at most once: the selection is a sub-multiset of the list, so
      `cleanup` never sends two deletes for one list entry. */
  lemma {:induction false} BackedOffAtMostOnce(items: seq<Pod>)
    ensures multiset(BackedOff(items)) <= multiset(items)
  {
    if items != [] {
      var init := items[..|items| - 1];
      BackedOffAtMostOnce(init);
      assert items == init + [items[|items| - 1]];
    }
  }

  /** Taking one more list item selects it or not. */
  lemma BackedOffStep(items: seq<Pod>, i: nat)
    requires i < |items|
    ensures BackedOff(items[..i + 1]) == BackedOff(items[..i]) + (if Stuck(items[i]) then [items[i]] else [])
  {
    assert items[..i + 1][..i] == items[..i];
  }

  datatype CleanupOutcome = Swept | ListFailed(exitCode: int)

  /** The body of `cleanup`'s outer loop: scan the pod's container statuses and, on the first
      one in `ImagePullBackOff`, delete the pod and stop scanning it. A failed delete is only
      logged. */
  method SweepPod(c: Cluster, pod: Pod, refused: set<ObjectKey>)
    requires c.Valid()
    modifies c`log, c`pods
    ensures c.Valid()
    ensures Stuck(pod) ==> c.log == old(c.log) + [Call.DeletePod(pod.Key())] &&
                           c.pods == if pod.Key() in refused then old(c.pods) else old(c.pods) - {pod.Key()}
    ensures !Stuck(pod) ==> c.log == old(c.log) && c.pods == old(c.pods)
  {
    var statuses := pod.containerStatuses;
    var j := 0;
    while j < |statuses|
      invariant 0 <= j <= |statuses|
      invariant forall k :: 0 <= k < j ==> !ImagePullBackOff(statuses[k])
      invariant c.log == old(c.log) && c.pods == old(c.pods)
    {
      var cs := statuses[j];
      if cs.state.waiting.Some? && cs.state.waiting.value.reason == "ImagePullBackOff" {
        var deleted := c.DeletePod(pod.Key(), refused);
        return;
      }
      j := j + 1;
    }
  }

  /** The loop of `cleanup`: sweep every listed pod, in list order. */
  method SweepAll(c: Cluster, items: seq<Pod>, refused: set<ObjectKey>)
    requires c.Valid()
    modifies c`log, c`pods
    ensures c.Valid()
    ensures c.log == old(c.log) + DeleteCalls(BackedOff(items))
    ensures c.pods == old(c.pods) - DeletedKeys(BackedOff(items), refused)
  {
    for i := 0 to |items|
      invariant c.Valid()
      invariant c.log == old(c.log) + DeleteCalls(BackedOff(items[..i]))
      invariant c.pods == old(c.pods) - DeletedKeys(BackedOff(items[..i]), refused)
    {
      var pod := items[i];
      ghost var log, pods := c.log, c.pods;
      SweepPod(c, pod, refused);
      BackedOffStep(items, i);
      SweepStep(old(c.log), old(c.pods), BackedOff(items[..i]), pod, Stuck(pod), refused, log, pods, c.log, c.pods);
    }
    assert items[..|items|] == items;
  }

  /** `cleanup`: list every pod and sweep each one in list order. A failed list is fatal
      (`log.Fatalf`, exit status 1) and deletes nothing. */
  method RunCleanup(c: Cluster, listed: Result<seq<Pod>, ApiError>, refused: set<ObjectKey>) returns (outcome: CleanupOutcome)
    requires c.Valid()
    modifies c`log, c`pods
    ensures c.Valid()
    ensures listed.Err? ==> outcome == ListFailed(1) && c.log == old(c.log) + [Call.ListPods] && c.pods == old(c.pods)
    ensures listed.Ok? ==>
      outcome == Swept &&
      c.log == old(c.log) + [Call.ListPods] + DeleteCalls(BackedOff(listed.value)) &&
      c.pods == old(c.pods) - DeletedKeys(BackedOff(listed.value), refused)
  {
    c.ListPods();
    if listed.Err? {
      return ListFailed(1);
    }
    SweepAll(c, listed.value, refused);
    outcome := Swept;
  }

  /** A pod without a stuck container, whose key no stuck listed pod shares, is still there
      after `cleanup`. */
  lemma HealthyPodsSurvive(items: seq<Pod>, refused: set<ObjectKey>, p: Pod)
    requires p in items && !Stuck(p)
    requires forall q :: q in items && q.Key() == p.Key() ==> !Stuck(q)
    ensures p.Key() !in DeletedKeys(BackedOff(items), refused)
  {
    BackedOffSelects(items);
  }
}
