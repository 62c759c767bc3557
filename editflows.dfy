/** The three editing commands: `editReplicas` (parse, fetch, set the count, update) and the
    two editor round trips `editIngress` and `editDeployment` (fetch, marshal, temporary file,
    editor, read back, unmarshal, update). Every step that can fail is an oracle: the control
    plane's answers come from the in-memory store and the `reachable`/`accepts` flags, the rest
    from the fields of `EditOracle`. Each failure prints a message naming the step and returns
    at once; the temporary file is removed by a deferred call once it exists. */
module EditFlows {
  import opened GoStd
  import opened Kube
  import opened CliArgs

  /** The steps of an editor round trip, as the messages printed on failure name them. */
  datatype Step =
    | Fetch | CreateTemp | Marshal | WriteTemp | CloseTemp | Editor | ReadTemp | Unmarshal | Update
    | RemoveTemp

  /** What an editor round trip did: the steps it attempted in order (ending with the deferred
      removal when a temporary file was made), the step that failed if one did, and the object
      it submitted if it got as far as the update. */
  datatype Run<T> = Run(steps: seq<Step>, failed: Option<Step>, submitted: Option<T>)

  /** How each fallible step of one editor session turns out. `marshal` and `unmarshal` stand
      for the YAML library; `edit` is what the user leaves in the file when the editor exits
      cleanly. */
  datatype EditOracle<!T> = EditOracle(
    reachable: bool,
    tempOk: bool,
    marshal: T -> Option<Doc>,
    writeOk: bool,
    closeOk: bool,
    editorOk: bool,
    edit: Doc -> Doc,
    readOk: bool,
    unmarshal: Doc -> Option<T>,
    accepts: bool)

  /** The two editor round trips. */
  datatype Kind = IngressEdit | DeploymentEdit

  /** The order of the steps: `editIngress` makes the temporary file before marshalling,
      `editDeployment` marshals first. */
  function Order(kind: Kind): seq<Step>
  {
    match kind
    case IngressEdit => [Fetch, CreateTemp, Marshal, WriteTemp, CloseTemp, Editor, ReadTemp, Unmarshal, Update]
    case DeploymentEdit => [Fetch, Marshal, CreateTemp, WriteTemp, CloseTemp, Editor, ReadTemp, Unmarshal, Update]
  }

  /** The steps before the deferred removal. */
  function Attempted<T>(run: Run<T>): seq<Step>
  {
    if |run.steps| > 0 && run.steps[|run.steps| - 1] == RemoveTemp then run.steps[..|run.steps| - 1] else run.steps
  }

  /** The shape every session has, for a fixed order of steps: it runs a non-empty prefix of
      the order and stops at the first failure, which is the last step it attempted; it
      completes the whole order only when nothing failed; the temporary file is removed, after
      everything else, exactly when it was created; and an object is submitted exactly when
      the update step was reached. */
  ghost predicate ShortCircuits<T>(run: Run<T>, kind: Kind)
  {
    var order := Order(kind);
    var attempted := Attempted(run);
    1 <= |attempted| <= |order| && attempted == order[..|attempted|] &&
    (run.failed.Some? ==> run.failed.value == attempted[|attempted| - 1]) &&
    (run.failed.None? ==> attempted == order) &&
    ((RemoveTemp in run.steps) <==> (CreateTemp in attempted && run.failed != Some(CreateTemp))) &&
    (run.submitted.Some? <==> Update in attempted)
  }

  /** Where step `s` sits in `order` (9 for the removal, which is in neither order). */
  function Position(kind: Kind, s: Step): nat
  {
    var ingress := kind == IngressEdit;
    match s
    case Fetch => 0
    case CreateTemp => if ingress then 1 else 2
    case Marshal => if ingress then 2 else 1
    case WriteTemp => 3
    case CloseTemp => 4
    case Editor => 5
    case ReadTemp => 6
    case Unmarshal => 7
    case Update => 8
    case RemoveTemp => 9
  }

  /** Each of the two orders lists nine distinct steps, each at its `Position`. */
  lemma OrderFacts(kind: Kind)
    ensures |Order(kind)| == 9
    ensures forall i :: 0 <= i < |Order(kind)| ==> Position(kind, Order(kind)[i]) == i
  {
    forall i | 0 <= i < |Order(kind)| ensures Position(kind, Order(kind)[i]) == i {
      assert i == 0 || i == 1 || i == 2 || i == 3 || i == 4 || i == 5 || i == 6 || i == 7 || i == 8;
    }
  }

  /** The session that stopped when step `k - 1` of the order failed; the deferred removal
      runs exactly when an earlier step created the temporary file. */
  function Halt<T>(kind: Kind, k: nat): Run<T>
    requires 1 <= k < 9
  {
    OrderFacts(kind);
    var order := Order(kind);
    var created := Position(kind, CreateTemp) < k - 1;
    Run(order[..k] + (if created then [RemoveTemp] else []), Some(order[k - 1]), None)
  }

  /** The session that reached the update; `rejected` says whether the server refused it. */
  function Finish<T>(kind: Kind, submitted: T, rejected: bool): Run<T>
  {
    Run(Order(kind) + [RemoveTemp], if rejected then Some(Update) else None, Some(submitted))
  }

  /** An early stop reports the step it stopped at and submits nothing. */
  lemma HaltFailure<T>(kind: Kind, k: nat)
    requires 1 <= k < 9
    ensures Halt<T>(kind, k).failed == Some(Order(kind)[k - 1]) && Halt<T>(kind, k).submitted.None?
  {
  }

  /** Every step but the removal sits at its `Position` in the order. */
  lemma OrderAt(kind: Kind, s: Step)
    requires s != RemoveTemp
    ensures Position(kind, s) < |Order(kind)| && Order(kind)[Position(kind, s)] == s
  {
  }

  /** The first `k` steps of the order are exactly the steps whose position is below `k`. */
  lemma InPrefix(kind: Kind, k: nat, s: Step)
    requires k <= 9
    ensures s in Order(kind)[..k] <==> s != RemoveTemp && Position(kind, s) < k
  {
    OrderFacts(kind);
    var order := Order(kind);
    if s in order[..k] {
      var i :| 0 <= i < k && order[..k][i] == s;
      assert Position(kind, order[i]) == i;
    }
    if s != RemoveTemp && Position(kind, s) < k {
      OrderAt(kind, s);
      assert order[..k][Position(kind, s)] == s;
    }
  }

  /** Every early stop has the short-circuit shape. */
  lemma HaltShape<T>(kind: Kind, k: nat)
    requires 1 <= k < 9
    ensures ShortCircuits(Halt<T>(kind, k), kind)
    ensures Halt<T>(kind, k).failed == Some(Order(kind)[k - 1]) && Halt<T>(kind, k).submitted.None?
  {
    OrderFacts(kind);
    var order := Order(kind);
    var r: Run<T> := Halt(kind, k);
    InPrefix(kind, k, RemoveTemp);
    InPrefix(kind, k, Update);
    InPrefix(kind, k, CreateTemp);
    assert order[..k][k - 1] == order[k - 1];
    assert Position(kind, order[k - 1]) == k - 1;
    assert Attempted(r) == order[..k];
  }

  /** All early stops at once, for use inside the session functions. */
  lemma AllHaltsShape<T>(kind: Kind)
    ensures forall k :: 1 <= k < 9 ==>
      ShortCircuits(Halt<T>(kind, k), kind) && Halt<T>(kind, k).failed == Some(Order(kind)[k - 1]) && Halt<T>(kind, k).submitted.None?
  {
    forall k | 1 <= k < 9
      ensures ShortCircuits(Halt<T>(kind, k), kind) && Halt<T>(kind, k).failed == Some(Order(kind)[k - 1]) && Halt<T>(kind, k).submitted.None?
    {
      HaltShape<T>(kind, k);
    }
  }

  /** A session that reached the update has the short-circuit shape. */
  lemma FinishShape<T>(kind: Kind, submitted: T, rejected: bool)
    ensures ShortCircuits(Finish(kind, submitted, rejected), kind)
  {
    OrderFacts(kind);
    var order := Order(kind);
    var r := Finish(kind, submitted, rejected);
    assert Attempted(r) == order;
    assert order[Position(kind, CreateTemp)] == CreateTemp;
  }

  /** What a failed deferred removal leaves behind: every earlier file as it was, plus one
      new file. */
  ghost predicate LeavesOneFile(before: map<nat, Doc>, after: map<nat, Doc>)
  {
    exists p :: p !in before && p in after && after - {p} == before
  }

  // -----------------------------------------------------------------------------------------
  // editIngress

  /** The session `editIngress(namespace, name)` runs against the stored ingresses. */
  function IngressRun(namespace: string, name: string, store: map<ObjectKey, Ingress>, o: EditOracle<Ingress>): (r: Run<Ingress>)
    ensures r.submitted.Some? ==> r.submitted.value.meta == Meta(namespace, name)
    ensures r.submitted.Some? ==>
      var key := ObjectKey(namespace, name);
      key in store && o.marshal(store[key]).Some? &&
      var edited := o.unmarshal(o.edit(o.marshal(store[key]).value));
      edited.Some? && r.submitted.value == edited.value.(meta := Meta(namespace, name))
    ensures r.failed.None? <==> r.submitted.Some? && o.accepts
  {
    match Lookup(store, ObjectKey(namespace, name), o.reachable)
    case Err(_) => Halt(IngressEdit, 1)
    case Ok(ingress) =>
      if !o.tempOk then Halt(IngressEdit, 2)
      else match o.marshal(ingress)
      case None => Halt(IngressEdit, 3)
      case Some(data) =>
        if !o.writeOk then Halt(IngressEdit, 4)
        else if !o.closeOk then Halt(IngressEdit, 5)
        else if !o.editorOk then Halt(IngressEdit, 6)
        else if !o.readOk then Halt(IngressEdit, 7)
        else match o.unmarshal(o.edit(data))
        case None => Halt(IngressEdit, 8)
        case Some(edited) =>
          var pinned := edited.(meta := Meta(namespace, name));
          var ok := Admits(store, namespace, pinned.meta.namespace, pinned.meta.name, o.accepts);
          Finish(IngressEdit, pinned, !ok)
  }

  /** `editIngress` short-circuits: it stops at the first failing step, removes the temporary
      file exactly when it created one, and submits only after every earlier step succeeded. */
  lemma IngressRunShape(namespace: string, name: string, store: map<ObjectKey, Ingress>, o: EditOracle<Ingress>)
    ensures ShortCircuits(IngressRun(namespace, name, store, o), IngressEdit)
  {
    AllHaltsShape<Ingress>(IngressEdit);
    var r := IngressRun(namespace, name, store, o);
    if r.submitted.Some? {
      FinishShape(IngressEdit, r.submitted.value, r.failed.Some?);
    }
  }

  /** Which steps of `editIngress` fail, in its order, each judged by its own oracle on the
      values the earlier steps produce: the fetch, the temporary file, the marshaller, the
      write, the close, the editor, the read-back, the unmarshaller, and the server's
      acceptance of the pinned object. */
  function IngressFaults(namespace: string, name: string, store: map<ObjectKey, Ingress>, o: EditOracle<Ingress>): seq<bool>
  {
    var key := ObjectKey(namespace, name);
    var found := o.reachable && key in store;
    var data := if found then o.marshal(store[key]) else None;
    var parsed := if data.Some? then o.unmarshal(o.edit(data.value)) else None;
    [!found, !o.tempOk, data.None?, !o.writeOk, !o.closeOk, !o.editorOk, !o.readOk, parsed.None?,
     !Admits(store, namespace, namespace, name, o.accepts)]
  }

  /** The session, given the position `k` of the first failing step (9 when none fails). */
  lemma IngressRunAt(namespace: string, name: string, store: map<ObjectKey, Ingress>, o: EditOracle<Ingress>, k: nat)
    requires k <= 9
    requires k < 9 ==> IngressFaults(namespace, name, store, o)[k]
    requires forall j :: 0 <= j < k ==> !IngressFaults(namespace, name, store, o)[j]
    ensures IngressRun(namespace, name, store, o).failed == (if k < 9 then Some(Order(IngressEdit)[k]) else None)
    ensures IngressRun(namespace, name, store, o).submitted.Some? <==> k >= 8
  {
    var faults := IngressFaults(namespace, name, store, o);
    var key := ObjectKey(namespace, name);
    if !(o.reachable && key in store) {
      assert faults[0];
      HaltFailure<Ingress>(IngressEdit, 1);
    } else if !o.tempOk {
      assert !faults[0] && faults[1];
      HaltFailure<Ingress>(IngressEdit, 2);
    } else if o.marshal(store[key]).None? {
      assert !faults[0] && !faults[1] && faults[2];
      HaltFailure<Ingress>(IngressEdit, 3);
    } else {
      var data := o.marshal(store[key]).value;
      assert !faults[0] && !faults[1] && !faults[2];
      if !o.writeOk {
        assert faults[3];
        HaltFailure<Ingress>(IngressEdit, 4);
      } else if !o.closeOk {
        assert !faults[3] && faults[4];
        HaltFailure<Ingress>(IngressEdit, 5);
      } else if !o.editorOk {
        assert !faults[3] && !faults[4] && faults[5];
        HaltFailure<Ingress>(IngressEdit, 6);
      } else if !o.readOk {
        assert !faults[3] && !faults[4] && !faults[5] && faults[6];
        HaltFailure<Ingress>(IngressEdit, 7);
      } else if o.unmarshal(o.edit(data)).None? {
        assert !faults[3] && !faults[4] && !faults[5] && !faults[6] && faults[7];
        HaltFailure<Ingress>(IngressEdit, 8);
      } else {
        assert !faults[3] && !faults[4] && !faults[5] && !faults[6] && !faults[7];
        var edited := o.unmarshal(o.edit(data)).value;
        var admitted := Admits(store, namespace, namespace, name, o.accepts);
        assert IngressRun(namespace, name, store, o) == Finish(IngressEdit, edited.(meta := Meta(namespace, name)), !admitted);
        assert Order(IngressEdit)[8] == Update;
        if admitted { assert k == 9; } else { assert faults[8]; }
      }
    }
  }

  /** `editIngress` fails at exactly the first step whose oracle fails, and reaches the update
      exactly when every step before it succeeds. */
  lemma IngressRunFailsAtFirstFault(namespace: string, name: string, store: map<ObjectKey, Ingress>, o: EditOracle<Ingress>)
    ensures var k := FirstSet(IngressFaults(namespace, name, store, o));
      IngressRun(namespace, name, store, o).failed == (if k < 9 then Some(Order(IngressEdit)[k]) else None) &&
      (IngressRun(namespace, name, store, o).submitted.Some? <==> k >= 8)
  {
    var faults := IngressFaults(namespace, name, store, o);
    IngressRunAt(namespace, name, store, o, FirstSet(faults));
  }

  /** A session whose every step up to the update succeeds submits the edited ingress, and
      succeeds when the server accepts it. */
  lemma IngressRunReachesUpdate(namespace: string, name: string, store: map<ObjectKey, Ingress>, o: EditOracle<Ingress>)
    requires o.reachable && ObjectKey(namespace, name) in store
    requires o.tempOk && o.marshal(store[ObjectKey(namespace, name)]).Some?
    requires o.writeOk && o.closeOk && o.editorOk && o.readOk
    requires o.unmarshal(o.edit(o.marshal(store[ObjectKey(namespace, name)]).value)).Some?
    ensures IngressRun(namespace, name, store, o).submitted.Some?
    ensures o.accepts ==> IngressRun(namespace, name, store, o).failed.None?
  {
    IngressRunFailsAtFirstFault(namespace, name, store, o);
    var faults := IngressFaults(namespace, name, store, o);
    assert forall j :: 0 <= j < 8 ==> !faults[j];
  }

  /** When every step before the editor succeeds and the editor fails, the session reports the
      editor as the failed step. */
  lemma IngressEditorFailureReported(namespace: string, name: string, store: map<ObjectKey, Ingress>, o: EditOracle<Ingress>)
    requires o.reachable && ObjectKey(namespace, name) in store
    requires o.tempOk && o.marshal(store[ObjectKey(namespace, name)]).Some?
    requires o.writeOk && o.closeOk && !o.editorOk
    ensures IngressRun(namespace, name, store, o).failed == Some(Editor)
  {
    IngressRunFailsAtFirstFault(namespace, name, store, o);
    var faults := IngressFaults(namespace, name, store, o);
    assert faults[5] && forall j :: 0 <= j < 5 ==> !faults[j];
  }

  /** Everything `editIngress` does between creating the temporary file and its deferred
      removal. */
  method IngressStaged(c: Cluster, tmp: TempDir, path: nat, namespace: string, name: string, ingress: Ingress, o: EditOracle<Ingress>)
    returns (run: Run<Ingress>)
    requires c.Valid() && tmp.Valid()
    requires o.reachable && o.tempOk
    requires ObjectKey(namespace, name) in c.ingresses && c.ingresses[ObjectKey(namespace, name)] == ingress
    requires path in tmp.files
    modifies c`log, c`ingresses, tmp`files
    ensures c.Valid() && tmp.Valid()
    ensures run == IngressRun(namespace, name, old(c.ingresses), o)
    ensures RemoveTemp in run.steps
    ensures path in tmp.files && tmp.files - {path} == old(tmp.files) - {path}
    ensures c.log == old(c.log) + (if run.submitted.Some? then [Call.UpdateIngress(namespace, run.submitted.value)] else [])
    ensures c.ingresses == if run.submitted.Some? && run.failed.None?
                           then old(c.ingresses)[ObjectKey(namespace, name) := run.submitted.value]
                           else old(c.ingresses)
  {
    var data := o.marshal(ingress);
    if data.None? {
      return Halt(IngressEdit, 3);
    }
    tmp.Write(path, data.value, o.writeOk);
    if !o.writeOk {
      return Halt(IngressEdit, 4);
    }
    if !o.closeOk {
      return Halt(IngressEdit, 5);
    }
    if !o.editorOk {
      return Halt(IngressEdit, 6);
    }
    tmp.Write(path, o.edit(tmp.files[path]), true);
    var modifiedData := tmp.Read(path, o.readOk);
    if modifiedData.None? {
      return Halt(IngressEdit, 7);
    }
    var parsed := o.unmarshal(modifiedData.value);
    if parsed.None? {
      return Halt(IngressEdit, 8);
    }
    var modified := parsed.value;
    modified := modified.(meta := modified.meta.(namespace := namespace));
    modified := modified.(meta := modified.meta.(name := name));
    var ok := c.UpdateIngress(namespace, modified, o.accepts);
    run := Finish(IngressEdit, modified, !ok);
  }

  /** `editIngress`: the session, with the temporary file gone again at the end and the
      ingress replaced only when every step succeeded. */
  method EditIngress(c: Cluster, tmp: TempDir, namespace: string, name: string, o: EditOracle<Ingress>, removeOk: bool)
    returns (run: Run<Ingress>)
    requires c.Valid() && tmp.Valid()
    modifies c, tmp
    ensures c.Valid() && tmp.Valid()
    ensures run == IngressRun(namespace, name, old(c.ingresses), o)
    ensures removeOk || RemoveTemp !in run.steps ==> tmp.files == old(tmp.files)
    ensures !removeOk && RemoveTemp in run.steps ==> LeavesOneFile(old(tmp.files), tmp.files)
    ensures c.deployments == old(c.deployments) && c.pods == old(c.pods)
    ensures c.log == old(c.log) + [Call.GetIngress(ObjectKey(namespace, name))]
                    + (if run.submitted.Some? then [Call.UpdateIngress(namespace, run.submitted.value)] else [])
    ensures c.ingresses == if run.failed.None? then old(c.ingresses)[ObjectKey(namespace, name) := run.submitted.value]
                           else old(c.ingresses)
  {
    var got := c.GetIngress(ObjectKey(namespace, name), o.reachable);
    if got.Err? {
      return Halt(IngressEdit, 1);
    }
    var path := tmp.Create(o.tempOk);
    if path.None? {
      return Halt(IngressEdit, 2);
    }
    var staged := IngressStaged(c, tmp, path.value, namespace, name, got.value, o);
    tmp.Remove(path.value, removeOk);
    run := staged;
  }

  // -----------------------------------------------------------------------------------------
  // editDeployment

  /** The session `editDeployment(namespace, name)` runs against the stored deployments. The
      object submitted is whatever the edited text unmarshals to: its namespace and name are
      not pinned to the arguments. */
  function DeploymentRun(namespace: string, name: string, store: map<ObjectKey, Deployment>, o: EditOracle<Deployment>): (r: Run<Deployment>)
    ensures r.submitted.Some? ==>
      var key := ObjectKey(namespace, name);
      key in store && o.marshal(store[key]).Some? &&
      o.unmarshal(o.edit(o.marshal(store[key]).value)) == Some(r.submitted.value)
    ensures r.failed.None? <==>
      r.submitted.Some? && Admits(store, namespace, r.submitted.value.meta.namespace, r.submitted.value.meta.name, o.accepts)
  {
    match Lookup(store, ObjectKey(namespace, name), o.reachable)
    case Err(_) => Halt(DeploymentEdit, 1)
    case Ok(deployment) =>
      match o.marshal(deployment)
      case None => Halt(DeploymentEdit, 2)
      case Some(data) =>
        if !o.tempOk then Halt(DeploymentEdit, 3)
        else if !o.writeOk then Halt(DeploymentEdit, 4)
        else if !o.closeOk then Halt(DeploymentEdit, 5)
        else if !o.editorOk then Halt(DeploymentEdit, 6)
        else if !o.readOk then Halt(DeploymentEdit, 7)
        else match o.unmarshal(o.edit(data))
        case None => Halt(DeploymentEdit, 8)
        case Some(updated) =>
          var ok := Admits(store, namespace, updated.meta.namespace, updated.meta.name, o.accepts);
          Finish(DeploymentEdit, updated, !ok)
  }

  /** `editDeployment` short-circuits in the same way, in its own order of steps. */
  lemma DeploymentRunShape(namespace: string, name: string, store: map<ObjectKey, Deployment>, o: EditOracle<Deployment>)
    ensures ShortCircuits(DeploymentRun(namespace, name, store, o), DeploymentEdit)
  {
    AllHaltsShape<Deployment>(DeploymentEdit);
    var r := DeploymentRun(namespace, name, store, o);
    if r.submitted.Some? {
      FinishShape(DeploymentEdit, r.submitted.value, r.failed.Some?);
    }
  }

  /** Which steps of `editDeployment` fail, in its order: the fetch, the marshaller, the
      temporary file, the write, the close, the editor, the read-back, the unmarshaller, and
      the server's acceptance of the object as edited. */
  function DeploymentFaults(namespace: string, name: string, store: map<ObjectKey, Deployment>, o: EditOracle<Deployment>): seq<bool>
  {
    var key := ObjectKey(namespace, name);
    var found := o.reachable && key in store;
    var data := if found then o.marshal(store[key]) else None;
    var parsed := if data.Some? then o.unmarshal(o.edit(data.value)) else None;
    [!found, data.None?, !o.tempOk, !o.writeOk, !o.closeOk, !o.editorOk, !o.readOk, parsed.None?,
     !(parsed.Some? && Admits(store, namespace, parsed.value.meta.namespace, parsed.value.meta.name, o.accepts))]
  }

  /** The session, given the position `k` of the first failing step (9 when none fails). */
  lemma DeploymentRunAt(namespace: string, name: string, store: map<ObjectKey, Deployment>, o: EditOracle<Deployment>, k: nat)
    requires k <= 9
    requires k < 9 ==> DeploymentFaults(namespace, name, store, o)[k]
    requires forall j :: 0 <= j < k ==> !DeploymentFaults(namespace, name, store, o)[j]
    ensures DeploymentRun(namespace, name, store, o).failed == (if k < 9 then Some(Order(DeploymentEdit)[k]) else None)
    ensures DeploymentRun(namespace, name, store, o).submitted.Some? <==> k >= 8
  {
    var faults := DeploymentFaults(namespace, name, store, o);
    var key := ObjectKey(namespace, name);
    if !(o.reachable && key in store) {
      assert faults[0];
      HaltFailure<Deployment>(DeploymentEdit, 1);
    } else if o.marshal(store[key]).None? {
      assert !faults[0] && faults[1];
      HaltFailure<Deployment>(DeploymentEdit, 2);
    } else if !o.tempOk {
      assert !faults[0] && !faults[1] && faults[2];
      HaltFailure<Deployment>(DeploymentEdit, 3);
    } else {
      var data := o.marshal(store[key]).value;
      assert !faults[0] && !faults[1] && !faults[2];
      if !o.writeOk {
        assert faults[3];
        HaltFailure<Deployment>(DeploymentEdit, 4);
      } else if !o.closeOk {
        assert !faults[3] && faults[4];
        HaltFailure<Deployment>(DeploymentEdit, 5);
      } else if !o.editorOk {
        assert !faults[3] && !faults[4] && faults[5];
        HaltFailure<Deployment>(DeploymentEdit, 6);
      } else if !o.readOk {
        assert !faults[3] && !faults[4] && !faults[5] && faults[6];
        HaltFailure<Deployment>(DeploymentEdit, 7);
      } else if o.unmarshal(o.edit(data)).None? {
        assert !faults[3] && !faults[4] && !faults[5] && !faults[6] && faults[7];
        HaltFailure<Deployment>(DeploymentEdit, 8);
      } else {
        assert !faults[3] && !faults[4] && !faults[5] && !faults[6] && !faults[7];
        var updated := o.unmarshal(o.edit(data)).value;
        var admitted := Admits(store, namespace, updated.meta.namespace, updated.meta.name, o.accepts);
        assert DeploymentRun(namespace, name, store, o) == Finish(DeploymentEdit, updated, !admitted);
        assert Order(DeploymentEdit)[8] == Update;
        if admitted { assert k == 9; } else { assert faults[8]; }
      }
    }
  }

  /** `editDeployment` fails at exactly the first step whose oracle fails, and reaches the
      update exactly when every step before it succeeds. */
  lemma DeploymentRunFailsAtFirstFault(namespace: string, name: string, store: map<ObjectKey, Deployment>, o: EditOracle<Deployment>)
    ensures var k := FirstSet(DeploymentFaults(namespace, name, store, o));
      DeploymentRun(namespace, name, store, o).failed == (if k < 9 then Some(Order(DeploymentEdit)[k]) else None) &&
      (DeploymentRun(namespace, name, store, o).submitted.Some? <==> k >= 8)
  {
    var faults := DeploymentFaults(namespace, name, store, o);
    DeploymentRunAt(namespace, name, store, o, FirstSet(faults));
  }

  /** A session whose every step up to the update succeeds submits the edited deployment, and
      succeeds when the server admits it. */
  lemma DeploymentRunReachesUpdate(namespace: string, name: string, store: map<ObjectKey, Deployment>, o: EditOracle<Deployment>)
    requires o.reachable && ObjectKey(namespace, name) in store
    requires o.marshal(store[ObjectKey(namespace, name)]).Some? && o.tempOk
    requires o.writeOk && o.closeOk && o.editorOk && o.readOk
    requires o.unmarshal(o.edit(o.marshal(store[ObjectKey(namespace, name)]).value)).Some?
    ensures DeploymentRun(namespace, name, store, o).submitted.Some?
    ensures var d := DeploymentRun(namespace, name, store, o).submitted.value;
      Admits(store, namespace, d.meta.namespace, d.meta.name, o.accepts) ==> DeploymentRun(namespace, name, store, o).failed.None?
  {
    DeploymentRunFailsAtFirstFault(namespace, name, store, o);
    var faults := DeploymentFaults(namespace, name, store, o);
    assert forall j :: 0 <= j < 8 ==> !faults[j];
  }

  /** When every step before the editor succeeds and the editor fails, the session reports the
      editor as the failed step. */
  lemma DeploymentEditorFailureReported(namespace: string, name: string, store: map<ObjectKey, Deployment>, o: EditOracle<Deployment>)
    requires o.reachable && ObjectKey(namespace, name) in store
    requires o.marshal(store[ObjectKey(namespace, name)]).Some? && o.tempOk
    requires o.writeOk && o.closeOk && !o.editorOk
    ensures DeploymentRun(namespace, name, store, o).failed == Some(Editor)
  {
    DeploymentRunFailsAtFirstFault(namespace, name, store, o);
    var faults := DeploymentFaults(namespace, name, store, o);
    assert faults[5] && forall j :: 0 <= j < 5 ==> !faults[j];
  }

  /** Everything `editDeployment` does between creating the temporary file and its deferred
      removal. */
  method DeploymentStaged(c: Cluster, tmp: TempDir, path: nat, namespace: string, name: string, data: Doc, ghost deployment: Deployment, o: EditOracle<Deployment>)
    returns (run: Run<Deployment>)
    requires c.Valid() && tmp.Valid()
    requires o.reachable && o.tempOk
    requires ObjectKey(namespace, name) in c.deployments && c.deployments[ObjectKey(namespace, name)] == deployment
    requires o.marshal(deployment) == Some(data)
    requires path in tmp.files
    modifies c`log, c`deployments, tmp`files
    ensures c.Valid() && tmp.Valid()
    ensures run == DeploymentRun(namespace, name, old(c.deployments), o)
    ensures RemoveTemp in run.steps
    ensures path in tmp.files && tmp.files - {path} == old(tmp.files) - {path}
    ensures c.log == old(c.log) + (if run.submitted.Some? then [Call.UpdateDeployment(namespace, run.submitted.value)] else [])
    ensures c.deployments == if run.submitted.Some? && run.failed.None?
                             then old(c.deployments)[ObjectKey(namespace, run.submitted.value.meta.name) :=
                                                     run.submitted.value.(meta := Meta(namespace, run.submitted.value.meta.name))]
                             else old(c.deployments)
  {
    tmp.Write(path, data, o.writeOk);
    if !o.writeOk {
      return Halt(DeploymentEdit, 4);
    }
    if !o.closeOk {
      return Halt(DeploymentEdit, 5);
    }
    if !o.editorOk {
      return Halt(DeploymentEdit, 6);
    }
    tmp.Write(path, o.edit(tmp.files[path]), true);
    var updatedData := tmp.Read(path, o.readOk);
    if updatedData.None? {
      return Halt(DeploymentEdit, 7);
    }
    var parsed := o.unmarshal(updatedData.value);
    if parsed.None? {
      return Halt(DeploymentEdit, 8);
    }
    var ok := c.UpdateDeployment(namespace, parsed.value, o.accepts);
    run := Finish(DeploymentEdit, parsed.value, !ok);
  }

  /** `editDeployment`. */
  method EditDeployment(c: Cluster, tmp: TempDir, namespace: string, name: string, o: EditOracle<Deployment>, removeOk: bool)
    returns (run: Run<Deployment>)
    requires c.Valid() && tmp.Valid()
    modifies c, tmp
    ensures c.Valid() && tmp.Valid()
    ensures run == DeploymentRun(namespace, name, old(c.deployments), o)
    ensures removeOk || RemoveTemp !in run.steps ==> tmp.files == old(tmp.files)
    ensures !removeOk && RemoveTemp in run.steps ==> LeavesOneFile(old(tmp.files), tmp.files)
    ensures c.ingresses == old(c.ingresses) && c.pods == old(c.pods)
    ensures c.log == old(c.log) + [Call.GetDeployment(ObjectKey(namespace, name))]
                    + (if run.submitted.Some? then [Call.UpdateDeployment(namespace, run.submitted.value)] else [])
    ensures c.deployments == if run.failed.None?
                             then old(c.deployments)[ObjectKey(namespace, run.submitted.value.meta.name) :=
                                                     run.submitted.value.(meta := Meta(namespace, run.submitted.value.meta.name))]
                             else old(c.deployments)
  {
    var got := c.GetDeployment(ObjectKey(namespace, name), o.reachable);
    if got.Err? {
      return Halt(DeploymentEdit, 1);
    }
    var data := o.marshal(got.value);
    if data.None? {
      return Halt(DeploymentEdit, 2);
    }
    var path := tmp.Create(o.tempOk);
    if path.None? {
      return Halt(DeploymentEdit, 3);
    }
    var staged := DeploymentStaged(c, tmp, path.value, namespace, name, data.value, got.value, o);
    tmp.Remove(path.value, removeOk);
    run := staged;
  }

  // -----------------------------------------------------------------------------------------
  // editReplicas

  /** How `editReplicas` ended: the argument was refused, the fetch or the update failed, or
      the deployment now asks for `replicas`. */
  datatype ReplicasOutcome =
    | InvalidParam(cause: ReplicaParamError)
    | FetchFailed(error: ApiError)
    | UpdateFailed
    | Scaled(replicas: int32)

  /** `editReplicas(param)`: nothing is sent to the control plane unless the argument is
      well formed; then the deployment is fetched, only its `Spec.Replicas` is set, to the
      count converted by `int32(...)` (so a negative or oversized count goes through), and it
      is submitted under the parsed namespace. */
  method EditReplicas(c: Cluster, param: string, reachable: bool, accepts: bool) returns (outcome: ReplicasOutcome)
    requires c.Valid()
    modifies c`log, c`deployments
    ensures c.Valid()
    ensures ParseReplicaParam(param).Err? ==>
      outcome == InvalidParam(ParseReplicaParam(param).error) && c.log == old(c.log) && c.deployments == old(c.deployments)
    ensures ParseReplicaParam(param).Ok? ==>
      var req := ParseReplicaParam(param).value;
      var key := ObjectKey(req.namespace, req.name);
      if !reachable || key !in old(c.deployments) then
        outcome == FetchFailed(Lookup(old(c.deployments), key, reachable).error) &&
        c.log == old(c.log) + [Call.GetDeployment(key)] && c.deployments == old(c.deployments)
      else
        var scaled := old(c.deployments)[key].(replicas := Some(ToInt32(req.count)));
        c.log == old(c.log) + [Call.GetDeployment(key), Call.UpdateDeployment(req.namespace, scaled)] &&
        (if accepts then outcome == Scaled(ToInt32(req.count)) && c.deployments == old(c.deployments)[key := scaled]
         else outcome == UpdateFailed && c.deployments == old(c.deployments))
  {
    var parsed := ParseReplicaParam(param);
    if parsed.Err? {
      return InvalidParam(parsed.error);
    }
    var namespace, deploymentName, replicaCount := parsed.value.namespace, parsed.value.name, parsed.value.count;
    var got := c.GetDeployment(ObjectKey(namespace, deploymentName), reachable);
    if got.Err? {
      return FetchFailed(got.error);
    }
    var deployment := got.value;
    var replicas := ToInt32(replicaCount);
    deployment := deployment.(replicas := Some(replicas));
    var ok := c.UpdateDeployment(namespace, deployment, accepts);
    if !ok {
      return UpdateFailed;
    }
    outcome := Scaled(replicas);
  }

  /** A count above the 32-bit range passes the argument check and is wrapped on conversion:
      the replica count set is congruent to the count modulo 2^32 but never equal to it
      (`ns:web:4294967297` asks for one replica). */
  lemma OversizedCountWraps(namespace: string, name: string, n: int)
    requires ':' !in namespace && ':' !in name
    requires 0x8000_0000 <= n <= MaxInt64
    ensures ParseReplicaParam(namespace + ":" + name + ":" + Itoa(n)) == Ok(ReplicaRequest(namespace, name, n))
    ensures ToInt32(n) as int != n && (n - ToInt32(n) as int) % 0x1_0000_0000 == 0
  {
    CountAccepted(namespace, name, n);
  }

  // -----------------------------------------------------------------------------------------
  // What the session shape implies, for either order of steps

  /** A failure before the update means nothing is submitted and the update never runs. */
  lemma NoUpdateAfterFailure<T>(run: Run<T>, kind: Kind)
    requires ShortCircuits(run, kind)
    requires run.failed.Some? && run.failed.value != Update
    ensures Update !in run.steps && run.submitted.None?
  {
    OrderFacts(kind);
    var attempted := Attempted(run);
    var k := |attempted|;
    assert Position(kind, Order(kind)[k - 1]) == k - 1;
    forall i | 0 <= i < k ensures attempted[i] != Update {
      assert Position(kind, Order(kind)[i]) == i;
    }
    assert run.steps == attempted || run.steps == attempted + [RemoveTemp];
  }

  /** When the editor fails, the file is not read back, nothing is unmarshalled or submitted,
      and the temporary file is still removed. */
  lemma EditorFailureStops<T>(run: Run<T>, kind: Kind)
    requires ShortCircuits(run, kind)
    requires run.failed == Some(Editor)
    ensures ReadTemp !in run.steps && Unmarshal !in run.steps && Update !in run.steps
    ensures RemoveTemp in run.steps && run.submitted.None?
  {
    OrderFacts(kind);
    var order := Order(kind);
    var attempted := Attempted(run);
    var k := |attempted|;
    assert Position(kind, order[k - 1]) == k - 1;
    assert attempted == order[..6];
    assert CreateTemp in attempted by {
      assert Position(kind, order[1]) == 1 && Position(kind, order[2]) == 2;
    }
    assert run.steps == attempted || run.steps == attempted + [RemoveTemp];
  }

  /** A failed fetch stops the session before any temporary file exists. */
  lemma FetchFailureMakesNoFile<T>(run: Run<T>, kind: Kind)
    requires ShortCircuits(run, kind)
    requires run.failed == Some(Fetch)
    ensures run.steps == [Fetch] && run.submitted.None?
  {
    OrderFacts(kind);
    var order := Order(kind);
    var attempted := Attempted(run);
    var k := |attempted|;
    assert Position(kind, order[k - 1]) == k - 1;
    assert attempted == [Fetch];
  }
}
