/** The two argument shapes the command line splits: `namespace/deployment` (for
    `-editdeployment` and `-describedeployment`) and `namespace:deployment:count` (for
    `-editreplicas`). */
module CliArgs {
  import opened GoStd
  import opened Kube

  /** `parts := strings.Split(v, "/")` followed by the `len(parts) == 2` test: the value is
      accepted exactly when it holds one `/`, and then it is `namespace/name`. */
  function ParseNamespacedName(v: string): (r: Option<ObjectKey>)
    ensures r.Some? <==> Count(v, '/') == 1
    ensures r.Some? ==> v == r.value.namespace + "/" + r.value.name
    ensures r.Some? ==> '/' !in r.value.namespace && '/' !in r.value.name
  {
    var parts := Split(v, '/');
    SplitLength(v, '/');
    if |parts| == 2 then
      JoinSplit(v, '/');
      SplitPiecesFree(v, '/');
      assert Join(parts, '/') == parts[0] + "/" + Join(parts[1..], '/');
      Some(ObjectKey(parts[0], parts[1]))
    else None
  }

  /** A well-formed `-editreplicas` value. */
  datatype ReplicaRequest = ReplicaRequest(namespace: string, name: string, count: int)

  /** Why `editReplicas` refused its argument: not three `:`-separated fields, or a count Atoi
      does not accept. */
  datatype ReplicaParamError = BadFormat | BadCount(cause: AtoiError)

  /** Text after the last occurrence of `sep`: the piece Atoi is given. */
  function LastPiece(s: string, sep: char): string
  {
    var parts := Split(s, sep);
    parts[|parts| - 1]
  }

  /** `strings.Split(param, ":")`, `len(parts) != 3`, `strconv.Atoi(parts[2])`. */
  function ParseReplicaParam(param: string): (r: Result<ReplicaRequest, ReplicaParamError>)
    ensures Count(param, ':') != 2 ==> r == Err(BadFormat)
    ensures Count(param, ':') == 2 ==> (r.Ok? <==> Atoi(LastPiece(param, ':')).Ok?)
    ensures Count(param, ':') == 2 && Atoi(LastPiece(param, ':')).Err? ==>
      r == Err(BadCount(Atoi(LastPiece(param, ':')).error))
    ensures r.Ok? ==> param == r.value.namespace + ":" + r.value.name + ":" + LastPiece(param, ':')
    ensures r.Ok? ==> ':' !in r.value.namespace && ':' !in r.value.name
    ensures r.Ok? ==> Atoi(LastPiece(param, ':')) == Ok(r.value.count)
    ensures r.Ok? ==> MinInt64 <= r.value.count <= MaxInt64
  {
    var parts := Split(param, ':');
    SplitLength(param, ':');
    if |parts| != 3 then Err(BadFormat)
    else
      match Atoi(parts[2])
      case Err(e) => Err(BadCount(e))
      case Ok(n) =>
        JoinSplit(param, ':');
        SplitPiecesFree(param, ':');
        assert parts[1..][1..] == [parts[2]];
        assert Join(parts[1..], ':') == parts[1] + ":" + parts[2];
        assert Join(parts, ':') == parts[0] + ":" + (parts[1] + ":" + parts[2]);
        Ok(ReplicaRequest(parts[0], parts[1], n))
  }

  /** The shape check is exact in the other direction too: three colon-free fields whose
      last one is a count Atoi accepts are always taken apart as written. */
  lemma ReplicaParamAccepts(namespace: string, name: string, count: string)
    requires ':' !in namespace && ':' !in name && ':' !in count
    requires Atoi(count).Ok?
    ensures ParseReplicaParam(namespace + ":" + name + ":" + count) == Ok(ReplicaRequest(namespace, name, Atoi(count).value))
  {
    var parts := [namespace, name, count];
    SplitJoin(parts, ':');
    assert Join(parts, ':') == namespace + ":" + name + ":" + count by {
      assert parts[1..][1..] == [count];
      assert Join(parts[1..], ':') == name + ":" + count;
    }
  }

  /** Likewise for `namespace/name`. */
  lemma NamespacedNameAccepts(namespace: string, name: string)
    requires '/' !in namespace && '/' !in name
    ensures ParseNamespacedName(namespace + "/" + name) == Some(ObjectKey(namespace, name))
  {
    var parts := [namespace, name];
    SplitJoin(parts, '/');
    assert Join(parts, '/') == namespace + "/" + name by {
      assert parts[1..] == [name];
    }
  }

  /** Every 64-bit count, as Itoa writes it, passes the argument check and is read back as
      written; nothing rejects a negative count such as `ns:web:-1`, nor one beyond the
      32-bit range. */
  lemma CountAccepted(namespace: string, name: string, n: int)
    requires ':' !in namespace && ':' !in name
    requires MinInt64 <= n <= MaxInt64
    ensures ParseReplicaParam(namespace + ":" + name + ":" + Itoa(n)) == Ok(ReplicaRequest(namespace, name, n))
  {
    AtoiItoa(n);
    ItoaChars(n);
    ReplicaParamAccepts(namespace, name, Itoa(n));
  }

  /** Position of the first set flag in a priority list, or its length when none is set. */
  function FirstSet(flags: seq<bool>): (i: nat)
    ensures i <= |flags|
    ensures i < |flags| ==> flags[i]
    ensures forall j :: 0 <= j < i ==> !flags[j]
  {
    if flags == [] then 0 else if flags[0] then 0 else 1 + FirstSet(flags[1..])
  }

  /** The first set flag is unique: a position with a set flag and no set flag before it
      (or the length, with no flag set) is the one `FirstSet` finds. */
  lemma {:induction false} FirstSetAt(flags: seq<bool>, k: nat)
    requires k <= |flags|
    requires k < |flags| ==> flags[k]
    requires forall j :: 0 <= j < k ==> !flags[j]
    ensures FirstSet(flags) == k
  {
    if k > 0 {
      FirstSetAt(flags[1..], k - 1);
    }
  }
}
