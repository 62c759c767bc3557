# K8s-CMD-BinaryFile in Dafny

K8s-CMD-BinaryFile is a small Kubernetes command-line tool. It ships as two independent Go
programs, `main.go` and `Secrets.go`. Each parses its flags, builds a client and runs exactly
one command, chosen by a fixed if/else-if chain:

- `cleanup` sweeps pods;
- `editreplicas` rescales a deployment;
- `editingress` and `editdeployment` take an object through a YAML file in `vim` and submit
  the result;
- the remaining commands only print.

This project models the decision logic and the state changes of both programs, and proves
what they promise:

- **`GoStd`** holds the parts of the Go standard library the argument checks rely on.
  `strings.Split` with a one-character separator is proved inverse to `strings.Join`.
  `strconv.Atoi` is modelled on a 64-bit platform, with its syntax and range errors in the
  order Go reports them: digits are read left to right, so a run of leading digits past
  2^64 - 1 is a range error even when a non-digit follows it. It is proved to read back
  every integer `strconv.Itoa` writes. The conversion `int32(x)` is
  written out as two's-complement wrap-around.
- **`Kube`** holds the objects the tool touches and two classes. `Cluster` is the control plane
  as an in-memory store that logs every request; its get, update and delete methods
  answer the way the server would; a list only records the request. `TempDir` is the
  directory holding the editor's temporary files.
- **`CliArgs`** holds the two argument shapes, `namespace/deployment` and
  `namespace:deployment:count`, and the first-set-flag priority rule.
- **`EditFlows`** models `editReplicas`, `editIngress` and `editDeployment`. These three
  functions are identical in `main.go` (lines 197-367) and `Secrets.go` (lines 178-348), so
  they are modelled once.
  - Each editor round trip has a pure specification (`IngressRun`, `DeploymentRun`): the
    sequence of steps tried, the step that failed, and the object submitted. The imperative
    methods over `Cluster` and `TempDir` are proved to follow it.
  - Every step that can fail is an oracle: the YAML marshaller, file creation and writes, the
    editor, the read-back, the unmarshaller, and the server's acceptance.
- **`MainProgram`** models `main.go`: the ten-command dispatch, and a `cleanup` that deletes
  every pod not `Running`.
- **`SecretsProgram`** models `Secrets.go`: the eight-command dispatch, and a `cleanup` that
  deletes every pod with a container waiting in `ImagePullBackOff`, at most once per pod.

Only `editIngress` pins the submitted object's namespace and name to its arguments
(main.go:289-291, Secrets.go:270-272). `editDeployment` submits whatever the edited YAML
names, and `DeploymentRun` and `EditFlows.EditDeployment` model that: the deployment updated is
the one the edited text names, and the server decides whether to admit it.

## Model

| member | source | states |
|---|---|---|
| `GoStd.Split` | main.go:81 | `strings.Split` always returns at least one piece, even for the empty string |
| `GoStd.SplitLength` | main.go:81-82 | splitting gives one more piece than there are separators, so `len(parts) == 2` means exactly one `/` |
| `GoStd.JoinSplit` | main.go:81-86 | joining the pieces with the separator gives back the argument |
| `GoStd.SplitJoin` | main.go:81-86 | splitting a join of separator-free pieces gives back the pieces |
| `GoStd.Atoi` | main.go:207-211 | `strconv.Atoi` succeeds only on an optional sign followed by decimal digits whose value fits a 64-bit int; when the leading digits after the sign are worth more than 2^64 - 1 it is a range error whatever follows them; otherwise text that is not an optional sign followed by digits is a syntax error |
| `GoStd.AtoiDecimal` | main.go:207-211 | on an optional sign followed by digits, Atoi returns the signed value of the digits when a 64-bit int holds it (`+5` is 5, `007` is 7, `-0` is 0) and a range error otherwise, so `9223372036854775808` is a range error |
| `GoStd.OverflowBeforeJunk` | main.go:207-211 | twenty or more leading digits led by a 2 or more, signed or not, followed by a non-digit such as `99999999999999999999x` or by nothing, make Atoi report a range error, not a syntax error |
| `GoStd.AtoiItoa` | main.go:207 | Atoi reads back every 64-bit integer that Itoa writes |
| `GoStd.ToInt32` | main.go:221 | `int32(x)` agrees with `x` modulo 2^32 and is `x` itself inside the 32-bit range |
| `Kube.Lookup` | main.go:214-218 | a get succeeds exactly when the server is reachable and holds the key, and then returns the stored object |
| `Kube.Cluster.constructor` | main.go:55 | the control plane starts from stores whose keys are addressable (no empty namespace or name) and agree with each object's metadata, so a get or update with an empty name always fails |
| `Kube.Cluster.GetDeployment` | main.go:214 | a deployment get is logged and answered as `Lookup` does |
| `Kube.Cluster.UpdateDeployment` | main.go:225 | an update is logged; it succeeds exactly when the server admits it, and then replaces the object stored under the target namespace and the object's own name |
| `Kube.Cluster.GetIngress` | main.go:236 | an ingress get is logged and answered as `Lookup` does |
| `Kube.Cluster.UpdateIngress` | main.go:294 | as for deployments |
| `Kube.Cluster.ListPods` | main.go:107 | the list request is logged |
| `Kube.Cluster.DeletePod` | main.go:116 | a delete is logged; it succeeds exactly when the pod exists and the server does not refuse, and the pod is gone unless the server refused |
| `Kube.TempDir.Create` | main.go:243-247 | a temporary file, when it can be made, is fresh and empty and leaves every other file alone |
| `Kube.TempDir.Write` | main.go:256-259 | a successful write replaces the file's contents; a failed one changes nothing |
| `Kube.TempDir.Read` | main.go:276-280 | a successful read returns the file's contents |
| `Kube.TempDir.Remove` | main.go:248 | the deferred removal deletes exactly that file when it succeeds, and leaves everything as it was when it fails (the program ignores that error) |
| `CliArgs.ParseNamespacedName` | main.go:81-86 | a value is accepted exactly when it holds one `/`; it is then `namespace + "/" + name`, and neither part contains `/` |
| `CliArgs.NamespacedNameAccepts` | main.go:81-86 | conversely, every `namespace/name` with `/`-free parts is accepted as exactly that pair |
| `CliArgs.ParseReplicaParam` | main.go:199-211 | anything but three `:`-separated fields is a format error; with three, the value is accepted exactly when Atoi accepts the third field, and otherwise the error carries Atoi's own error kind; an accepted value is `namespace:name:count` with colon-free namespace and name and a 64-bit count |
| `CliArgs.ReplicaParamAccepts` | main.go:199-211 | conversely, three colon-free fields with an Atoi-valid count are always accepted as written |
| `CliArgs.CountAccepted` | main.go:199-211 | every 64-bit count, as Itoa writes it, passes the argument check and is read back as written; nothing rejects a negative count such as `ns:web:-1` or one beyond the 32-bit range |
| `CliArgs.FirstSet` | main.go:62-102 | the position picked holds a set flag and every earlier flag is clear (the end of the list when none is set) |
| `EditFlows.IngressRun` | main.go:234-301 | whatever `editIngress` submits carries the argument namespace and name, and is otherwise the unmarshalled edit of the marshalled stored ingress; the session succeeds exactly when it submits and the server accepts (Secrets.go:215-282 is the same code) |
| `EditFlows.IngressRunShape` | main.go:236-298 | `editIngress` tries its steps in order (fetch, temporary file, marshal, write, close, editor, read, unmarshal, update) and stops at the first failure; it removes the temporary file exactly when it created it, and submits only when every earlier step succeeded |
| `EditFlows.IngressRunFailsAtFirstFault` | main.go:236-298 | the step `editIngress` reports as failed is exactly the first one whose own oracle fails (fetch, temporary file, marshal, write, close, editor, read, unmarshal, then the server's acceptance of the pinned object), and it submits exactly when every step before the update succeeds |
| `EditFlows.IngressRunReachesUpdate` | main.go:236-298 | when every step before the update succeeds, `editIngress` submits, and it succeeds when the server accepts |
| `EditFlows.IngressEditorFailureReported` | main.go:270-273 | with every earlier step successful and the editor failing, the session fails at the editor |
| `EditFlows.IngressStaged` | main.go:250-298 | the steps after the temporary file exists follow `IngressRun`; they touch only that file, log the update only when one is sent, and change the stored ingress only when the update is admitted |
| `EditFlows.EditIngress` | main.go:234-301 | `editIngress` follows `IngressRun`; afterwards the temporary directory is as it was unless a temporary file was made and its removal failed, which leaves just that one extra file; deployments and pods are untouched, the log is the get plus the update if one was sent, and the ingress is replaced exactly when the session succeeded |
| `EditFlows.DeploymentRun` | main.go:303-367 | whatever `editDeployment` submits is exactly the unmarshalled edit of the marshalled stored deployment, with no identity pinning; the session succeeds exactly when the server admits that object (Secrets.go:284-348 is the same code) |
| `EditFlows.DeploymentRunShape` | main.go:305-364 | `editDeployment` short-circuits in the same way, in its own order (fetch, marshal, temporary file, write, close, editor, read, unmarshal, update) |
| `EditFlows.DeploymentRunFailsAtFirstFault` | main.go:305-364 | the step `editDeployment` reports as failed is exactly the first one whose own oracle fails, in its own order (fetch, marshal, temporary file, write, close, editor, read, unmarshal, then the server's admission of the object as edited), and it submits exactly when every step before the update succeeds |
| `EditFlows.DeploymentRunReachesUpdate` | main.go:305-364 | when every step before the update succeeds, `editDeployment` submits the edited object, and it succeeds when the server admits it |
| `EditFlows.DeploymentEditorFailureReported` | main.go:340-343 | with every earlier step successful and the editor failing, the session fails at the editor |
| `EditFlows.DeploymentStaged` | main.go:326-364 | the steps after the temporary file exists follow `DeploymentRun`, touch only that file, and change only the deployment the edited object names |
| `EditFlows.EditDeployment` | main.go:303-367 | `editDeployment` follows `DeploymentRun`; the temporary directory is restored unless the removal of the temporary file failed, which leaves just that file; ingresses and pods are untouched, and a deployment changes only when the session succeeded |
| `EditFlows.EditReplicas` | main.go:197-232 | a malformed argument sends nothing; otherwise the deployment is fetched, and if it exists, only `Spec.Replicas` is changed, to `int32(count)`, and the result is submitted under the parsed namespace and stored exactly when the server accepts (Secrets.go:178-213 is the same code) |
| `EditFlows.OversizedCountWraps` | main.go:207-222 | every count above the 32-bit range and within 64 bits passes the argument check, and the replica count set from it is congruent to it modulo 2^32 but never equal to it (`ns:web:4294967297` sets one replica) |
| `EditFlows.NoUpdateAfterFailure` | main.go:236-294 | in either edit session, a failure before the update means the update is never attempted and nothing is submitted |
| `EditFlows.EditorFailureStops` | main.go:270-273 | when the editor fails, nothing is read back, unmarshalled or submitted, and the temporary file is still removed (Secrets.go:229 and 251-254; for deployments main.go:324 and 340-343) |
| `EditFlows.FetchFailureMakesNoFile` | main.go:236-240 | a failed fetch ends the session before any temporary file exists |
| `MainProgram.Dispatch` | main.go:48-102 | a failed config or client build exits with status 1 before any command; every exit the dispatch chain itself makes comes from `-editingress`, `-editdeployment` or `-viewlogs`, with status 1 (the commands it runs may exit too, as `cleanup` does when listing fails); with no command flag set, the usage text is printed |
| `MainProgram.DispatchFollowsPriority` | main.go:62-102 | the arm taken is the first whose flag is set, in the order cleanup, list, showsecrets, showevents, describepod, editreplicas, editingress, editdeployment, describedeployment, viewlogs; at most one runs |
| `MainProgram.DispatchRunsCommand` | main.go:62-73 | the cleanup, list, showsecrets and showevents arms run that command; the describepod arm describes the `-describepod` pod in `-namespace`; the editreplicas arm passes the `-editreplicas` value on |
| `MainProgram.UsageWhenNothingRequested` | main.go:100-102 | with no command flag set, `main` prints usage |
| `MainProgram.DefaultsPrintUsage` | main.go:28-43 | run with every flag at its declared default, the program prints usage |
| `MainProgram.EditIngressNeedsName` | main.go:74-79 | `-editingress` exits with status 1 exactly when `-ingressname` is empty, and otherwise edits that ingress in `-namespace` |
| `MainProgram.EditDeploymentShape` | main.go:80-86 | `-editdeployment` edits exactly when its value has one `/`, split into namespace and name; otherwise it exits with status 1 |
| `MainProgram.DescribeDeploymentNeverExits` | main.go:87-93 | `-describedeployment` uses the same one-`/` rule, but a bad value only prints a message and does not exit |
| `MainProgram.ViewLogsNeedsPod` | main.go:94-99 | `-viewlogs` exits with status 1 exactly when `-pod` is empty |
| `MainProgram.NotRunningSelects` | main.go:113-114 | a pod is selected for deletion exactly when it is listed and its phase is not `Running` |
| `MainProgram.NotRunningAppend` | main.go:113-123 | selection keeps list order: it distributes over concatenation |
| `MainProgram.NotRunningAtMostOnce` | main.go:113-123 | no list entry is selected more than once |
| `MainProgram.RunCleanup` | main.go:105-124 | a failed list exits with status 1 after logging only the list request; otherwise one delete is sent per not-Running pod, in list order, and the loop goes on after a failed delete; the pods removed are exactly those deletes the server did not refuse |
| `MainProgram.SweepAll` | main.go:113-123 | the loop sends one delete per not-Running pod, in list order, and none for a Running pod; a refused delete removes nothing and the loop goes on; the pods removed are exactly the not-Running pods whose delete was not refused, and the store stays well keyed |
| `MainProgram.RunningPodsSurvive` | main.go:113-123 | a Running pod whose key no other listed pod shares is never deleted |
| `SecretsProgram.Dispatch` | Secrets.go:41-82 | a failed config or client build exits with status 1; every exit the dispatch chain itself makes comes from `-editingress` or `-editdeployment` (the commands it runs may exit too, as `cleanup` does through `log.Fatalf`); with no command flag set, the usage text is printed |
| `SecretsProgram.DispatchFollowsPriority` | Secrets.go:55-82 | the arm taken is the first whose flag is set, in the order cleanup, list, showsecrets, showevents, describepod, editreplicas, editingress, editdeployment; there is no describedeployment or viewlogs |
| `SecretsProgram.DispatchRunsCommand` | Secrets.go:55-66 | the cleanup, list, showsecrets and showevents arms run that command; the describepod arm describes the `-describepod` pod in `-namespace`; the editreplicas arm passes the `-editreplicas` value on |
| `SecretsProgram.DefaultsPrintUsage` | Secrets.go:27-36 | run with every flag at its declared default, the program prints usage |
| `SecretsProgram.EditIngressNeedsName` | Secrets.go:67-72 | `-editingress` exits with status 1 exactly when `-ingressname` is empty |
| `SecretsProgram.EditDeploymentShape` | Secrets.go:73-79 | `-editdeployment` edits exactly when its value has one `/`, and otherwise exits with status 1 |
| `SecretsProgram.BackedOffSelects` | Secrets.go:93-95 | a pod is selected exactly when it is listed and some container is Waiting with reason `ImagePullBackOff` |
| `SecretsProgram.BackedOffAtMostOnce` | Secrets.go:94-101 | no list entry is selected more than once, however many of its containers are stuck |
| `SecretsProgram.SweepPod` | Secrets.go:94-103 | the inner loop sends one delete when some container is stuck and none otherwise, stopping at the first stuck container |
| `SecretsProgram.RunCleanup` | Secrets.go:85-105 | a failed list is fatal with status 1 and deletes nothing; otherwise one delete is sent per stuck pod, in list order, and a failed delete does not stop the loop |
| `SecretsProgram.SweepAll` | Secrets.go:92-104 | the outer loop sends one delete per stuck pod, in list order, and none for any other pod; a refused delete removes nothing and the loop goes on; the pods removed are exactly the stuck pods whose delete was not refused, and the store stays well keyed |
| `SecretsProgram.HealthyPodsSurvive` | Secrets.go:93-104 | a pod with no stuck container, whose key no stuck listed pod shares, is never deleted |

## Left out

- The read-only commands are left out: `listPods`, `showSecrets`, `showEvents`, `describePod`, `describeDeployment` and `viewPodLogs` (main.go:126-195 and 369-426, Secrets.go:107-177). They only format library structures to standard output. Dispatch records which one runs and with what arguments.
- `flag.Parse` is left out: the parsed values are the input to `Dispatch`.
- Building the config and the client from the kubeconfig file is left out; `ClientSetup` says whether it worked.
- `os.Exit`, `log.Fatalf` and `flag.Usage` become outcome values (`Exit`, `ListFailed`, `Usage`) and are not process terminations.
- client-go's own refusal of a request with an empty name is not modelled as a separate error: no stored key has an empty part, so such a get answers `NotFound`.
- The control plane is a fake in-memory store. Reachability, acceptance and refused deletes are inputs. Resource versions, validation and admission beyond existence and a namespace match are folded into the `accepts` flag.
- YAML marshalling and unmarshalling are arbitrary partial functions in `EditOracle`. No round trip is claimed for them.
- Launching `vim` and wiring its terminal is left out. Its effect is the `edit` function applied to the file contents, and its failure is `editorOk`.
- Kube.Cluster.ListPods: the items returned are an input to `cleanup`, not derived from `pods`. The model does not require that the listing agree with the store.
- File handles are left out. The open temporary file is never closed when the marshal or write step fails in `editIngress` (main.go:251-259), or when the write step fails in `editDeployment` (main.go:326-329); the model records only that the file is removed.
- Printed messages are left out, except the exit messages kept in `Exit`.
- The tool does not run its requests concurrently, so concurrency is left out.
