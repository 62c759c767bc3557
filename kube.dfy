/** The cluster objects the tool touches, the control plane as an in-memory store that records
    every request made to it, and the local directory that holds the editor's temporary files. */
module Kube {
  import opened GoStd

  /** A (namespace, name) pair: how the tool addresses every namespaced object. */
  datatype ObjectKey = ObjectKey(namespace: string, name: string)

  /** The identity part of an object's metadata. */
  datatype Meta = Meta(namespace: string, name: string)

  /** A deployment: its identity, `Spec.Replicas` (a nil-able pointer to a 32-bit count) and
      everything else in it, which the tool never looks at. */
  datatype Deployment = Deployment(meta: Meta, replicas: Option<int32>, rest: string)

  /** An ingress: its identity and the rest of it. */
  datatype Ingress = Ingress(meta: Meta, rest: string)

  /** `ContainerStateWaiting`: why a container has not started. */
  datatype Waiting = Waiting(reason: string, message: string)

  /** `ContainerState`: only the Waiting pointer is inspected by the tool. */
  datatype ContainerState = ContainerState(waiting: Option<Waiting>, running: bool, terminated: bool)

  datatype ContainerStatus = ContainerStatus(name: string, state: ContainerState)

  /** A pod: identity, `Status.Phase` and `Status.ContainerStatuses`. */
  datatype Pod = Pod(meta: Meta, phase: string, containerStatuses: seq<ContainerStatus>)
  {
    function Key(): ObjectKey { ObjectKey(meta.namespace, meta.name) }
  }

  /** Why a control-plane request failed. */
  datatype ApiError = Unreachable | NotFound

  /** One request the tool sent to the control plane. */
  datatype Call =
    | ListPods
    | DeletePod(key: ObjectKey)
    | GetDeployment(key: ObjectKey)
    | UpdateDeployment(namespace: string, deployment: Deployment)
    | GetIngress(key: ObjectKey)
    | UpdateIngress(namespace: string, ingress: Ingress)

  /** The delete requests issued for `pods`, one each, in order. */
  function DeleteCalls(pods: seq<Pod>): seq<Call>
  {
    seq(|pods|, i requires 0 <= i < |pods| => DeletePod(pods[i].Key()))
  }

  /** The keys that deletes of `pods` actually remove: all of them but those the server
      refuses. */
  function DeletedKeys(pods: seq<Pod>, refused: set<ObjectKey>): set<ObjectKey>
  {
    set p | p in pods && p.Key() !in refused :: p.Key()
  }

  /** One more delete request goes at the end of the log. */
  lemma DeleteCallsSnoc(pods: seq<Pod>, p: Pod)
    ensures DeleteCalls(pods + [p]) == DeleteCalls(pods) + [DeletePod(p.Key())]
  {
  }

  /** One more delete removes that pod's key, unless the server refuses it. */
  lemma DeletedKeysSnoc(pods: seq<Pod>, p: Pod, refused: set<ObjectKey>)
    ensures DeletedKeys(pods + [p], refused) == DeletedKeys(pods, refused) + (if p.Key() in refused then {} else {p.Key()})
  {
  }

  /** Removing two sets of keys one after the other removes their union. */
  lemma RemoveKeysTwice(m: map<ObjectKey, Pod>, a: set<ObjectKey>, b: set<ObjectKey>)
    ensures m - (a + b) == (m - a) - b
  {
  }

  /** One step of a sweep over a pod list: when the log and the pods so far are those of
      deleting `swept`, then deleting `p` as well (when `take`) or not gives those of
      deleting `swept` followed by `p` (or just `swept`). */
  lemma SweepStep(log0: seq<Call>, pods0: map<ObjectKey, Pod>, swept: seq<Pod>, p: Pod, take: bool,
                  refused: set<ObjectKey>, log: seq<Call>, pods: map<ObjectKey, Pod>,
                  log': seq<Call>, pods': map<ObjectKey, Pod>)
    requires log == log0 + DeleteCalls(swept) && pods == pods0 - DeletedKeys(swept, refused)
    requires take ==> log' == log + [DeletePod(p.Key())] && pods' == if p.Key() in refused then pods else pods - {p.Key()}
    requires !take ==> log' == log && pods' == pods
    ensures var next := swept + (if take then [p] else []);
      log' == log0 + DeleteCalls(next) && pods' == pods0 - DeletedKeys(next, refused)
  {
    if take {
      DeleteCallsSnoc(swept, p);
      DeletedKeysSnoc(swept, p, refused);
      RemoveKeysTwice(pods0, DeletedKeys(swept, refused), if p.Key() in refused then {} else {p.Key()});
    } else {
      assert swept + [] == swept;
    }
  }

  /** The answer to a get: the stored object, unless the server is unreachable or holds no
      object under that key. */
  function Lookup<T>(store: map<ObjectKey, T>, key: ObjectKey, reachable: bool): (r: Result<T, ApiError>)
    ensures r.Ok? <==> reachable && key in store
    ensures r.Ok? ==> r.value == store[key]
  {
    if !reachable then Err(Unreachable)
    else if key !in store then Err(NotFound)
    else Ok(store[key])
  }

  /** Whether the server admits a full-object update sent to namespace `namespace` for an
      object whose own metadata says (`objNamespace`, `objName`): the target object must exist,
      the object's namespace must be empty or agree with the request's, and the server must not
      refuse it for its own reasons (a stale resource version, validation), which `accepts`
      stands for. */
  predicate Admits<T>(store: map<ObjectKey, T>, namespace: string, objNamespace: string, objName: string, accepts: bool)
  {
    accepts && ObjectKey(namespace, objName) in store && (objNamespace == "" || objNamespace == namespace)
  }

  /** A key a server can hold: neither part is empty (client-go refuses a request with an empty
      name before sending it, and a namespaced object always has a namespace). */
  predicate Addressable(k: ObjectKey)
  {
    k.namespace != "" && k.name != ""
  }

  /** Every stored object is under an addressable key and carries that key. */
  ghost predicate WellKeyed(deployments: map<ObjectKey, Deployment>, ingresses: map<ObjectKey, Ingress>, pods: map<ObjectKey, Pod>)
  {
    (forall k :: k in deployments ==> Addressable(k) && deployments[k].meta == Meta(k.namespace, k.name)) &&
    (forall k :: k in ingresses ==> Addressable(k) && ingresses[k].meta == Meta(k.namespace, k.name)) &&
    (forall k :: k in pods ==> Addressable(k) && pods[k].Key() == k)
  }

  /** The control plane, as an in-memory store of the three kinds the tool changes, plus the
      log of every request the tool sent. */
  class Cluster {
    var deployments: map<ObjectKey, Deployment>
    var ingresses: map<ObjectKey, Ingress>
    var pods: map<ObjectKey, Pod>
    var log: seq<Call>

    ghost predicate Valid()
      reads this
    {
      WellKeyed(deployments, ingresses, pods)
    }

    constructor (deployments: map<ObjectKey, Deployment>, ingresses: map<ObjectKey, Ingress>, pods: map<ObjectKey, Pod>)
      requires WellKeyed(deployments, ingresses, pods)
      ensures Valid()
      ensures this.deployments == deployments && this.ingresses == ingresses && this.pods == pods
      ensures log == []
    {
      this.deployments := deployments;
      this.ingresses := ingresses;
      this.pods := pods;
      log := [];
    }

    /** `Deployments(ns).Get(name)`. */
    method GetDeployment(key: ObjectKey, reachable: bool) returns (r: Result<Deployment, ApiError>)
      modifies this`log
      ensures log == old(log) + [Call.GetDeployment(key)]
      ensures r == Lookup(deployments, key, reachable)
    {
      log := log + [Call.GetDeployment(key)];
      r := Lookup(deployments, key, reachable);
    }

    /** `Deployments(ns).Update(d)`: replaces the deployment named by `d` in namespace `ns`. */
    method UpdateDeployment(namespace: string, d: Deployment, accepts: bool) returns (ok: bool)
      requires Valid()
      modifies this`log, this`deployments
      ensures Valid()
      ensures log == old(log) + [Call.UpdateDeployment(namespace, d)]
      ensures ok == Admits(old(deployments), namespace, d.meta.namespace, d.meta.name, accepts)
      ensures deployments == if ok then old(deployments)[ObjectKey(namespace, d.meta.name) := d.(meta := Meta(namespace, d.meta.name))]
                             else old(deployments)
    {
      log := log + [Call.UpdateDeployment(namespace, d)];
      ok := Admits(deployments, namespace, d.meta.namespace, d.meta.name, accepts);
      if ok {
        deployments := deployments[ObjectKey(namespace, d.meta.name) := d.(meta := Meta(namespace, d.meta.name))];
      }
    }

    /** `Ingresses(ns).Get(name)`. */
    method GetIngress(key: ObjectKey, reachable: bool) returns (r: Result<Ingress, ApiError>)
      modifies this`log
      ensures log == old(log) + [Call.GetIngress(key)]
      ensures r == Lookup(ingresses, key, reachable)
    {
      log := log + [Call.GetIngress(key)];
      r := Lookup(ingresses, key, reachable);
    }

    /** `Ingresses(ns).Update(i)`. */
    method UpdateIngress(namespace: string, i: Ingress, accepts: bool) returns (ok: bool)
      requires Valid()
      modifies this`log, this`ingresses
      ensures Valid()
      ensures log == old(log) + [Call.UpdateIngress(namespace, i)]
      ensures ok == Admits(old(ingresses), namespace, i.meta.namespace, i.meta.name, accepts)
      ensures ingresses == if ok then old(ingresses)[ObjectKey(namespace, i.meta.name) := i.(meta := Meta(namespace, i.meta.name))]
                           else old(ingresses)
    {
      log := log + [Call.UpdateIngress(namespace, i)];
      ok := Admits(ingresses, namespace, i.meta.namespace, i.meta.name, accepts);
      if ok {
        ingresses := ingresses[ObjectKey(namespace, i.meta.name) := i.(meta := Meta(namespace, i.meta.name))];
      }
    }

    /** `Pods("").List()`: records the request; the listed items are the caller's input. */
    method ListPods()
      modifies this`log
      ensures log == old(log) + [Call.ListPods]
    {
      log := log + [Call.ListPods];
    }

    /** `Pods(ns).Delete(name)`: fails when the pod is gone or the server refuses. */
    method DeletePod(key: ObjectKey, refused: set<ObjectKey>) returns (ok: bool)
      requires Valid()
      modifies this`log, this`pods
      ensures Valid()
      ensures log == old(log) + [Call.DeletePod(key)]
      ensures ok == (key in old(pods) && key !in refused)
      ensures pods == if key in refused then old(pods) else old(pods) - {key}
    {
      log := log + [Call.DeletePod(key)];
      ok := key in pods && key !in refused;
      if key !in refused {
        pods := pods - {key};
      }
    }
  }

  /** The YAML text of an object, as written to and read back from a temporary file. */
  type Doc = string

  /** The system's temporary directory: file contents by path. Paths are numbers; `next` is
      above every path in use, so a new temporary name never collides. */
  class TempDir {
    var files: map<nat, Doc>
    var next: nat

    ghost predicate Valid()
      reads this
    {
      forall p :: p in files ==> p < next
    }

    /** `ioutil.TempFile`: a fresh empty file, unless the file system refuses. */
    method Create(ok: bool) returns (path: Option<nat>)
      requires Valid()
      modifies this
      ensures Valid()
      ensures path.Some? <==> ok
      ensures path.Some? ==> path.value !in old(files) && files == old(files)[path.value := ""]
      ensures path.None? ==> files == old(files)
    {
      if ok {
        path := Some(next);
        files := files[next := ""];
        next := next + 1;
      } else {
        path := None;
      }
    }

    /** A write that succeeds replaces the file's contents; one that fails leaves them. */
    method Write(path: nat, data: Doc, ok: bool)
      requires Valid() && path in files
      modifies this`files
      ensures Valid()
      ensures files == if ok then old(files)[path := data] else old(files)
    {
      if ok {
        files := files[path := data];
      }
    }

    /** `ioutil.ReadFile`. */
    method Read(path: nat, ok: bool) returns (data: Option<Doc>)
      requires path in files
      ensures data == if ok then Some(files[path]) else None
    {
      data := if ok then Some(files[path]) else None;
    }

    /** `os.Remove`: a removal that succeeds deletes the file; one that fails leaves it. */
    method Remove(path: nat, ok: bool)
      requires Valid()
      modifies this`files
      ensures Valid()
      ensures files == if ok then old(files) - {path} else old(files)
    {
      if ok {
        files := files - {path};
      }
    }
  }
}
