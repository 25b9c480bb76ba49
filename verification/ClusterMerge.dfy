/** The cluster node merges the properties of two kinds of objects that describe the same cluster. */
module ClusterMerge {
  import opened Options
  import opened Tables
  import opened ClusterCache

  const MANAGED_CLUSTER_INFO_API_GROUP := "internal.open-cluster-management.io"

  const ALL_ADDONS: seq<string> := [
    "application-manager", "cert-policy-controller", "cluster-proxy", "config-policy-controller",
    "governance-policy-framework", "iam-policy-controller", "observability-controller", "search-collector",
      "work-manager"]

  datatype Condition = Condition(kind: string, status: string)

  // The objects that the informers deliver, as far as the node depends on them.
  datatype Object =
    | ManagedCluster(name: string, labels: Option<map<string, string>>, created: string, cpu: int, memory: string,
                     kubernetesVersion: string, conditions: seq<Condition>)
    | ManagedClusterInfo(name: string, masterEndpoint: string, consoleURL: string, nodeCount: nat)
    | ManagedClusterAddOn(name: string)
    | OtherKind

  function AddonLabel(addon: string): string {
    "feature.open-cluster-management.io/addon-" + addon
  }

  function EnabledAddons(addons: seq<string>, labels: map<string, string>): map<string, string> {
    map addon | addon in addons :: if AddonLabel(addon) in labels then "true" else "false"
  }

  function WithConditions(props: Props, conditions: seq<Condition>): Props {
    if conditions == [] then props
    else
      var n := |conditions| - 1;
      WithConditions(props, conditions[..n])[conditions[n].kind := Text(conditions[n].status)]
  }

  function FromLabels(labels: Option<map<string, string>>): Props {
    match labels
    case None => map[]
    case Some(l) => map["label" := Object(l), "addon" := Object(EnabledAddons(ALL_ADDONS, l))]
  }

  // The properties of a managed cluster before its conditions are added.
  function BaseProperties(mc: Object): Props
    requires mc.ManagedCluster?
  {
    FromLabels(mc.labels) + map[
      "kind" := Text("Cluster"), "name" := Text(mc.name), "apigroup" := Text(MANAGED_CLUSTER_INFO_API_GROUP),
      "created" := Text(mc.created), "cpu" := Int(mc.cpu), "memory" := Text(mc.memory),
      "kubernetesVersion" := Text(mc.kubernetesVersion)]
  }

  // The properties that the object itself carries, before the merge.
  function OwnProperties(obj: Object): Props
    requires IsCluster(obj)
  {
    match obj
    case ManagedCluster(_, _, _, _, _, _, conditions) => WithConditions(BaseProperties(obj), conditions)
    case ManagedClusterInfo(name, masterEndpoint, consoleURL, nodeCount) =>
      map["apiEndpoint" := Text(masterEndpoint), "consoleURL" := Text(consoleURL), "nodes" := Int(nodeCount),
          "kind" := Text("Cluster"), "name" := Text(name), "apigroup" := Text(MANAGED_CLUSTER_INFO_API_GROUP)]
  }

  predicate IsCluster(obj: Object) {
    obj.ManagedCluster? || obj.ManagedClusterInfo?
  }

  // The properties that every node gets, for access control.
  function FixedProperties(): Props {
    map["apigroup" := Text(MANAGED_CLUSTER_INFO_API_GROUP), "kind_plural" := Text("managedclusterinfos"),
        "_hubClusterResource" := Flag(true)]
  }

  function Merged(cached: Option<Props>, own: Props): Props {
    (if cached.Some? then cached.value + own else own) + FixedProperties()
  }

  lemma {:induction false} ConditionsKeepText(props: Props, conditions: seq<Condition>)
    requires Named(props)
    ensures Named(WithConditions(props, conditions))
  {
    if conditions != [] { ConditionsKeepText(props, conditions[..|conditions| - 1]); }
  }

  // The name under which the merge looks for cached properties: a condition may override it.
  function NameProperty(obj: Object): (name: string)
    requires IsCluster(obj)
    ensures Named(OwnProperties(obj)) && OwnProperties(obj)["name"] == Text(name)
  {
    if obj.ManagedCluster? then
      ConditionsKeepText(BaseProperties(obj), obj.conditions);
      OwnProperties(obj)["name"].s
    else obj.name
  }

  // A cluster whose name property is its name: no condition overrides it with another one.
  predicate Describes(obj: Object) {
    IsCluster(obj) && NameProperty(obj) == obj.name
  }

  lemma {:induction false} ConditionsKeepName(props: Props, conditions: seq<Condition>)
    requires Named(props) && forall i | 0 <= i < |conditions| :: conditions[i].kind != "name"
    ensures "name" in WithConditions(props, conditions) && WithConditions(props, conditions)["name"] == props["name"]
  {
    if conditions != [] { ConditionsKeepName(props, conditions[..|conditions| - 1]); }
  }

  /** Without a condition of that kind the name property is the name. */
  lemma NoConditionRenames(obj: Object)
    requires IsCluster(obj)
    requires obj.ManagedCluster? ==> forall i | 0 <= i < |obj.conditions| :: obj.conditions[i].kind != "name"
    ensures Describes(obj)
  {
    if obj.ManagedCluster? { ConditionsKeepName(BaseProperties(obj), obj.conditions); }
  }

  lemma OwnName(obj: Object)
    requires Describes(obj)
    ensures Named(OwnProperties(obj)) && OwnProperties(obj)["name"].s == obj.name
  {
  }

  // ----- The code -----

  /** Take over the cached properties that the object does not carry. */
  method AddAdditionalProperties(clusters: Clusters, own: Props) returns (props: Props)
    requires Named(own)
    ensures props == Merged(clusters.ReadClustersCache(NodeUid(own["name"].s)), own)
  {
    props := own;
    var data := clusters.ReadClustersCache(NodeUid(own["name"].s));
    if data.Some? {
      var existingProps := data.value;
      var todo := existingProps.Keys;
      while todo != {}
        invariant todo <= existingProps.Keys
        invariant props == (map k | k in existingProps && k !in todo :: existingProps[k]) + own
        decreases todo
      {
        var key :| key in todo;
        ghost var before := todo;
        if key !in props {
          props := props[key := existingProps[key]];
        }
        todo := todo - {key};
        assert forall k :: k in existingProps && k !in todo <==> (k in existingProps && k !in before) || k == key;
      }
      assert (map k | k in existingProps && k !in todo :: existingProps[k]) == existingProps;
    }
    props := props["apigroup" := Text(MANAGED_CLUSTER_INFO_API_GROUP)];
    props := props["kind_plural" := Text("managedclusterinfos")];
    props := props["_hubClusterResource" := Flag(true)];
  }

  method TransformManagedClusterInfo(clusters: Clusters, info: Object) returns (uid: string, props: Props)
    requires info.ManagedClusterInfo?
    ensures uid == NodeUid(info.name)
    ensures props == Merged(clusters.ReadClustersCache(uid), OwnProperties(info))
  {
    props := map[];
    props := props["apiEndpoint" := Text(info.masterEndpoint)];
    props := props["consoleURL" := Text(info.consoleURL)];
    props := props["nodes" := Int(info.nodeCount)];
    props := props["kind" := Text("Cluster")];
    props := props["name" := Text(info.name)];
    props := props["apigroup" := Text(MANAGED_CLUSTER_INFO_API_GROUP)];
    assert props == OwnProperties(info);
    props := AddAdditionalProperties(clusters, props);
    uid := NodeUid(info.name);
  }

  method GetEnabledAddons(allAddons: seq<string>, labels: map<string, string>) returns (enabled: map<string, string>)
    ensures enabled == EnabledAddons(allAddons, labels)
  {
    enabled := map[];
    for i := 0 to |allAddons|
      invariant enabled == EnabledAddons(allAddons[..i], labels)
    {
      var addon := allAddons[i];
      assert allAddons[..i + 1] == allAddons[..i] + [addon];
      enabled := enabled[addon := if AddonLabel(addon) in labels then "true" else "false"];
    }
    assert allAddons[..|allAddons|] == allAddons;
  }

  // The labels and the fields of a managed cluster.
  method CollectProperties(mc: Object) returns (props: Props)
    requires mc.ManagedCluster?
    ensures props == BaseProperties(mc)
  {
    props := map[];
    if mc.labels.Some? {
      props := props["label" := Object(mc.labels.value)];
      var addons := GetEnabledAddons(ALL_ADDONS, mc.labels.value);
      props := props["addon" := Object(addons)];
    }
    assert props == FromLabels(mc.labels);
    hide FromLabels;
    props := props["kind" := Text("Cluster")];
    props := props["name" := Text(mc.name)];
    props := props["apigroup" := Text(MANAGED_CLUSTER_INFO_API_GROUP)];
    props := props["created" := Text(mc.created)];
    props := props["cpu" := Int(mc.cpu)];
    props := props["memory" := Text(mc.memory)];
    props := props["kubernetesVersion" := Text(mc.kubernetesVersion)];
  }

  method TransformManagedCluster(clusters: Clusters, mc: Object) returns (uid: string, props: Props)
    requires mc.ManagedCluster?
    ensures uid == NodeUid(mc.name)
    ensures props == Merged(clusters.ReadClustersCache(NodeUid(NameProperty(mc))), OwnProperties(mc))
  {
    hide BaseProperties, FixedProperties;
    props := CollectProperties(mc);
    for i := 0 to |mc.conditions|
      invariant props == WithConditions(BaseProperties(mc), mc.conditions[..i])
    {
      assert mc.conditions[..i + 1][..i] == mc.conditions[..i];
      props := props[mc.conditions[i].kind := Text(mc.conditions[i].status)];
    }
    assert mc.conditions[..|mc.conditions|] == mc.conditions;
    ghost var name := NameProperty(mc);
    props := AddAdditionalProperties(clusters, props);
    uid := NodeUid(mc.name);
  }

  function CachedNode(cache: map<string, Props>, name: string): Option<Props> {
    if NodeUid(name) in cache then Some(cache[NodeUid(name)]) else None
  }

  // The properties that are upserted for an object.
  function Upserted(cache: map<string, Props>, obj: Object): (props: Props)
    requires IsCluster(obj)
    ensures "name" in props && props["name"] == Text(NameProperty(obj))
  {
    Merged(CachedNode(cache, NameProperty(obj)), OwnProperties(obj))
  }

  // What an upsert event makes of the tables and the cache.
  function ObjectStep(s: NodeState, obj: Object, w: Weather): NodeState {
    if !IsCluster(obj) then s else UpsertStep(s, NodeUid(obj.name), Upserted(s.cache, obj), w)
  }

  method ProcessClusterUpsert(clusters: Clusters, obj: Object, w: Weather)
    modifies clusters, clusters.pool
    ensures clusters.View() == ObjectStep(old(clusters.View()), obj, w)
    ensures clusters.writes == old(clusters.writes)
      + if IsCluster(obj) && Writes(old(clusters.View()), NodeUid(obj.name),
                                    Upserted(old(clusters.existingClustersCache), obj), w) then 1 else 0
  {
    var uid, props;
    match obj {
      case ManagedCluster(_, _, _, _, _, _, _) => uid, props := TransformManagedCluster(clusters, obj);
      case ManagedClusterInfo(_, _, _, _) => uid, props := TransformManagedClusterInfo(clusters, obj);
      case _ => return;
    }
    assert props == Upserted(clusters.existingClustersCache, obj);
    clusters.UpsertCluster(uid, props, w);
  }

  // ----- What is stored -----

  function Stored(s: NodeState, obj: Object): Option<Row>
    requires IsCluster(obj)
  {
    RowAt(ObjectStep(s, obj, Weather(false, true, Taken)).db, "cluster__" + obj.name)
  }

  // The cache does not stand between the object and its row.
  ghost predicate Sound(s: NodeState, obj: Object)
    requires IsCluster(obj)
  {
    Normal(s.db) && (NodeUid(obj.name) in s.cache ==> CacheHolds(s, NodeUid(obj.name)))
  }

  // The row of the node after a good upsert of the object.
  lemma IsStored(s: NodeState, obj: Object)
    requires IsCluster(obj) && Sound(s, obj)
    ensures Stored(s, obj).Some?
    ensures var data, props := Stored(s, obj).value.data, Upserted(s.cache, obj);
      data.Keys == props.Keys && forall k | k in props :: data[k] == StoredValue(props[k])
  {
    assert NodeUid(obj.name) != "" by { assert |NodeUid(obj.name)| >= 9; }
    GoodUpsert(s, NodeUid(obj.name), Upserted(s.cache, obj));
    hide Upserted, UpsertStep;
  }

  /** A node that is there keeps the cluster under which it was created, whatever name an object gives it. */
  lemma NodeKeepsItsCluster(s: NodeState, obj: Object, w: Weather, uid: string)
    requires uid in s.db.resources
    ensures var t := ObjectStep(s, obj, w);
      uid in t.db.resources && t.db.resources[uid].cluster == s.db.resources[uid].cluster
  {
    if IsCluster(obj) { hide Upserted; }
  }

  // What every node carries, whatever object it comes from and whatever is cached.
  ghost predicate FixedAreStored(data: Props) {
    && "apigroup" in data && data["apigroup"] == Text("internal.open-cluster-management.io")
    && "kind_plural" in data && data["kind_plural"] == Text("managedclusterinfos")
    && "_hubClusterResource" in data && data["_hubClusterResource"] == Flag(true)
  }

  lemma MergedAt(cached: Option<Props>, own: Props, k: string)
    requires k in own
    ensures k in Merged(cached, own)
    ensures k !in {"apigroup", "kind_plural", "_hubClusterResource"} ==> Merged(cached, own)[k] == own[k]
  {
  }

  lemma FixedStored(s: NodeState, obj: Object)
    requires IsCluster(obj) && Sound(s, obj)
    ensures Stored(s, obj).Some? && FixedAreStored(Stored(s, obj).value.data)
  {
    IsStored(s, obj);
    hide OwnProperties, Stored;
  }

  // An own property ends up in the table.
  lemma OwnIsStored(s: NodeState, obj: Object, k: string)
    requires IsCluster(obj) && Sound(s, obj) && k in OwnProperties(obj)
    ensures Stored(s, obj).Some? && k in Stored(s, obj).value.data
    ensures k !in {"apigroup", "kind_plural", "_hubClusterResource"} ==>
      Stored(s, obj).value.data[k] == StoredValue(OwnProperties(obj)[k])
  {
    IsStored(s, obj);
    MergedAt(CachedNode(s.cache, NameProperty(obj)), OwnProperties(obj), k);
    hide OwnProperties, Stored, Merged;
  }

  /** What the table holds of a ManagedClusterInfo after a good upsert, whatever is cached. */
  lemma InfoIsStored(s: NodeState, obj: Object)
    requires obj.ManagedClusterInfo? && Sound(s, obj)
    ensures Stored(s, obj).Some?
    ensures var data := Stored(s, obj).value.data;
      && FixedAreStored(data)
      && "apiEndpoint" in data && data["apiEndpoint"] == Text(obj.masterEndpoint)
      && "consoleURL" in data && data["consoleURL"] == Text(obj.consoleURL)
      && "nodes" in data && data["nodes"] == Float(obj.nodeCount)
      && "kind" in data && data["kind"] == Text("Cluster")
      && "name" in data && data["name"] == Text(obj.name)
  {
    hide Stored, Sound;
    FixedStored(s, obj);
    OwnIsStored(s, obj, "apiEndpoint");
    OwnIsStored(s, obj, "consoleURL");
    OwnIsStored(s, obj, "nodes");
    OwnIsStored(s, obj, "kind");
    OwnIsStored(s, obj, "name");
  }

  // The last condition of its kind.
  ghost predicate IsLast(conditions: seq<Condition>, i: nat) {
    i < |conditions| && forall j | i < j < |conditions| :: conditions[j].kind != conditions[i].kind
  }

  lemma {:induction false} LastConditionIs(props: Props, conditions: seq<Condition>, i: nat)
    requires IsLast(conditions, i)
    ensures conditions[i].kind in WithConditions(props, conditions)
    ensures WithConditions(props, conditions)[conditions[i].kind] == Text(conditions[i].status)
  {
    var n := |conditions| - 1;
    if i < n {
      LastConditionIs(props, conditions[..n], i);
      assert conditions[n].kind != conditions[i].kind;
    }
  }

  // No condition of the managed cluster is named like this property.
  predicate Unconditioned(conditions: seq<Condition>, k: string) {
    forall i | 0 <= i < |conditions| :: conditions[i].kind != k
  }

  lemma {:induction false} UnconditionedIs(props: Props, conditions: seq<Condition>, k: string)
    requires Unconditioned(conditions, k) && k in props
    ensures k in WithConditions(props, conditions) && WithConditions(props, conditions)[k] == props[k]
  {
    if conditions != [] { UnconditionedIs(props, conditions[..|conditions| - 1], k); }
  }

  lemma FieldIsStored(s: NodeState, obj: Object, k: string)
    requires obj.ManagedCluster? && Sound(s, obj) && k in BaseProperties(obj)
    requires k !in {"apigroup", "kind_plural", "_hubClusterResource"}
    ensures Stored(s, obj).Some?
    ensures Unconditioned(obj.conditions, k) ==>
      k in Stored(s, obj).value.data && Stored(s, obj).value.data[k] == StoredValue(BaseProperties(obj)[k])
  {
    hide Stored, Sound, BaseProperties;
    IsStored(s, obj);
    if Unconditioned(obj.conditions, k) {
      UnconditionedIs(BaseProperties(obj), obj.conditions, k);
      OwnIsStored(s, obj, k);
    }
  }

  /** What the table holds of a ManagedCluster after a good upsert, whatever is cached: the marks of every
      node, and every field unless a condition is named like it. */
  lemma ClusterIsStored(s: NodeState, obj: Object)
    requires obj.ManagedCluster? && Sound(s, obj)
    ensures Stored(s, obj).Some?
    ensures var data, cs := Stored(s, obj).value.data, obj.conditions;
      && FixedAreStored(data)
      && (Unconditioned(cs, "kind") ==> "kind" in data && data["kind"] == Text("Cluster"))
      && (Unconditioned(cs, "name") ==> "name" in data && data["name"] == Text(obj.name))
      && (Unconditioned(cs, "created") ==> "created" in data && data["created"] == Text(obj.created))
      && (Unconditioned(cs, "cpu") ==> "cpu" in data && data["cpu"] == Float(obj.cpu))
      && (Unconditioned(cs, "memory") ==> "memory" in data && data["memory"] == Text(obj.memory))
      && (Unconditioned(cs, "kubernetesVersion") ==>
           "kubernetesVersion" in data && data["kubernetesVersion"] == Text(obj.kubernetesVersion))
  {
    hide Stored, Sound, Unconditioned;
    FixedStored(s, obj);
    FieldIsStored(s, obj, "kind");
    FieldIsStored(s, obj, "name");
    FieldIsStored(s, obj, "created");
    FieldIsStored(s, obj, "cpu");
    FieldIsStored(s, obj, "memory");
    FieldIsStored(s, obj, "kubernetesVersion");
  }

  /** The labels are stored as they are, and each of the nine add-ons with "true" exactly if it has a label,
      unless a condition is named like them. */
  lemma LabelsAreStored(s: NodeState, obj: Object)
    requires obj.ManagedCluster? && Sound(s, obj) && obj.labels.Some?
    requires Unconditioned(obj.conditions, "label") && Unconditioned(obj.conditions, "addon")
    ensures Stored(s, obj).Some?
    ensures var data, labels := Stored(s, obj).value.data, obj.labels.value;
      && "label" in data && data["label"] == Object(labels)
      && "addon" in data && data["addon"].Object?
      && var addons := data["addon"].fields;
      && addons.Keys == {
           "application-manager", "cert-policy-controller", "cluster-proxy", "config-policy-controller",
           "governance-policy-framework", "iam-policy-controller", "observability-controller",
           "search-collector", "work-manager"}
      && forall a | a in addons ::
           addons[a] == if "feature.open-cluster-management.io/addon-" + a in labels then "true" else "false"
  {
    hide Stored, Sound, Unconditioned, BaseProperties, EnabledAddons;
    LabelsAre(obj);
    FieldIsStored(s, obj, "label");
    FieldIsStored(s, obj, "addon");
    AddonsAre(obj.labels.value);
  }

  lemma LabelsAre(obj: Object)
    requires obj.ManagedCluster? && obj.labels.Some?
    ensures var base := BaseProperties(obj);
      && "label" in base && base["label"] == Object(obj.labels.value)
      && "addon" in base && base["addon"] == Object(EnabledAddons(ALL_ADDONS, obj.labels.value))
  {
    hide EnabledAddons;
  }

  lemma AddonsAre(labels: map<string, string>)
    ensures EnabledAddons(ALL_ADDONS, labels).Keys == {
      "application-manager", "cert-policy-controller", "cluster-proxy", "config-policy-controller",
      "governance-policy-framework", "iam-policy-controller", "observability-controller", "search-collector",
      "work-manager"}
    ensures forall a | a in EnabledAddons(ALL_ADDONS, labels) ::
      EnabledAddons(ALL_ADDONS, labels)[a]
      == if "feature.open-cluster-management.io/addon-" + a in labels then "true" else "false"
  {
    NineAddons(ALL_ADDONS);
    AddonLabels(ALL_ADDONS, labels);
    hide EnabledAddons;
  }

  lemma AddonLabels(addons: seq<string>, labels: map<string, string>)
    ensures EnabledAddons(addons, labels).Keys == (set a | a in addons)
    ensures forall a | a in addons ::
      EnabledAddons(addons, labels)[a]
      == if "feature.open-cluster-management.io/addon-" + a in labels then "true" else "false"
  {
  }

  lemma NineAddons(addons: seq<string>)
    requires addons == ALL_ADDONS
    ensures (set a | a in addons) == {
      "application-manager", "cert-policy-controller", "cluster-proxy", "config-policy-controller",
      "governance-policy-framework", "iam-policy-controller", "observability-controller", "search-collector",
      "work-manager"}
  {
  }

  /** Of the conditions of each kind the last one is stored, over any field that has its name. */
  lemma ConditionIsStored(s: NodeState, obj: Object, i: nat)
    requires obj.ManagedCluster? && Sound(s, obj) && IsLast(obj.conditions, i)
    ensures Stored(s, obj).Some?
    ensures var data, c := Stored(s, obj).value.data, obj.conditions[i];
      c.kind in data && (c.kind in {"apigroup", "kind_plural", "_hubClusterResource"} || data[c.kind] == Text(c.status))
  {
    hide Stored, Sound;
    LastConditionIs(BaseProperties(obj), obj.conditions, i);
    OwnIsStored(s, obj, obj.conditions[i].kind);
  }

  /** After a restart the object of a cluster is always written again, although nothing may have changed: one
      of its properties is an integer, and is read back as a floating-point number. */
  lemma RestartWritesAgain(s: NodeState, obj: Object, w: Weather)
    requires s.cache == map[] && Normal(s.db) && IsCluster(obj) && !w.cancelled
    requires obj.ManagedCluster? ==> Unconditioned(obj.conditions, "cpu")
    ensures Writes(s, NodeUid(obj.name), Upserted(s.cache, obj), w)
  {
    var uid, props := NodeUid(obj.name), Upserted(s.cache, obj);
    var k := if obj.ManagedCluster? then "cpu" else "nodes";
    if obj.ManagedCluster? { UnconditionedIs(BaseProperties(obj), obj.conditions, "cpu"); }
    MergedAt(CachedNode(s.cache, NameProperty(obj)), OwnProperties(obj), k);
    assert k in props && props[k].Int?;
    hide Upserted, OwnProperties;
    assert Marshal(props)[k] != props[k];
  }

  // ----- The last writer wins -----

  ghost predicate Clusters(objs: seq<Object>) {
    forall obj | obj in objs :: IsCluster(obj)
  }

  // What an object contributes to its node.
  function Contribution(obj: Object): Props
    requires IsCluster(obj)
  {
    OwnProperties(obj) + FixedProperties()
  }

  function OverlaidBy(before: Option<Props>, obj: Object): Props
    requires IsCluster(obj)
  {
    if before.Some? then before.value + Contribution(obj) else Contribution(obj)
  }

  // The contributions of the objects of one cluster, laid over each other from left to right.
  ghost function Overlay(objs: seq<Object>, name: string): Option<Props>
    requires Clusters(objs)
    decreases |objs|
  {
    if objs == [] then None
    else
      var front, obj := objs[..|objs| - 1], objs[|objs| - 1];
      assert obj in objs;
      if obj.name != name then Overlay(front, name) else Some(OverlaidBy(Overlay(front, name), obj))
  }

  // The same, except that an object is laid over the node that its name property names.
  ghost function Node(objs: seq<Object>, name: string): Option<Props>
    requires Clusters(objs)
    decreases |objs|
  {
    if objs == [] then None
    else
      var front, obj := objs[..|objs| - 1], objs[|objs| - 1];
      assert obj in objs;
      if obj.name != name then Node(front, name) else Some(OverlaidBy(Node(front, NameProperty(obj)), obj))
  }

  ghost function RunObjects(s: NodeState, objs: seq<Object>): NodeState
    decreases |objs|
  {
    if objs == [] then s
    else ObjectStep(RunObjects(s, objs[..|objs| - 1]), objs[|objs| - 1], Weather(false, true, Taken))
  }

  // The cache and the table hold the properties, where there are any.
  ghost predicate Holds(s: NodeState, s0: NodeState, name: string, props: Option<Props>) {
    var uid := NodeUid(name);
    if props.None? then uid !in s.cache && RowAt(s.db, uid) == RowAt(s0.db, uid)
    else uid in s.cache && s.cache[uid] == props.value
         && uid in s.db.resources && s.db.resources[uid].data == Marshal(props.value)
  }

  lemma UpsertedIsOverlaid(cache: map<string, Props>, obj: Object)
    requires IsCluster(obj)
    ensures Upserted(cache, obj) == OverlaidBy(CachedNode(cache, NameProperty(obj)), obj)
  {
    var cached, own := CachedNode(cache, NameProperty(obj)), OwnProperties(obj);
    hide OwnProperties, FixedProperties;
    if cached.Some? {
      assert (cached.value + own) + FixedProperties() == cached.value + (own + FixedProperties());
    }
  }

  lemma StepHolds(
    s0: NodeState, s: NodeState, obj: Object, name: string, before: Option<Props>, base: Option<Props>)
    requires IsCluster(obj) && Normal(s.db)
    requires Holds(s, s0, name, before) && Holds(s, s0, NameProperty(obj), base)
    ensures var s' := ObjectStep(s, obj, Weather(false, true, Taken));
      && Normal(s'.db)
      && Holds(s', s0, name, if obj.name != name then before else Some(OverlaidBy(base, obj)))
  {
    var uid := NodeUid(obj.name);
    var props := Upserted(s.cache, obj);
    UpsertedIsOverlaid(s.cache, obj);
    assert uid != "" by { assert |uid| >= 9; }
    assert obj.name != name ==> uid != NodeUid(name) by {
      if uid == NodeUid(name) { assert uid[9..] == obj.name && NodeUid(name)[9..] == name; }
    }
    assert CachedNode(s.cache, NameProperty(obj)) == base;
    GoodUpsert(s, uid, props);
    assert ObjectStep(s, obj, Weather(false, true, Taken)) == UpsertStep(s, uid, props, Weather(false, true, Taken));
    hide Marshal, OverlaidBy, Upserted, Normal, UpsertStep, ObjectStep, NodeUid, NameProperty;
  }

  /** From an empty cache, with every write succeeding and no deletion, each cluster's node holds its objects'
      contributions, each laid over the node that its name property names, whatever row was there before. */
  lemma {:induction false} EveryNode(s0: NodeState, objs: seq<Object>, name: string)
    requires s0.cache == map[] && Normal(s0.db) && Clusters(objs)
    ensures Holds(RunObjects(s0, objs), s0, name, Node(objs, name))
    ensures Normal(RunObjects(s0, objs).db)
    decreases |objs|
  {
    if objs != [] {
      var front, obj := objs[..|objs| - 1], objs[|objs| - 1];
      assert obj in objs;
      EveryNode(s0, front, name);
      EveryNode(s0, front, NameProperty(obj));
      StepHolds(s0, RunObjects(s0, front), obj, name, Node(front, name), Node(front, NameProperty(obj)));
    }
  }

  lemma {:induction false} NodeIsOverlay(objs: seq<Object>, name: string)
    requires Clusters(objs) && forall obj | obj in objs && obj.name == name :: NameProperty(obj) == name
    ensures Node(objs, name) == Overlay(objs, name)
    decreases |objs|
  {
    if objs != [] {
      NodeIsOverlay(objs[..|objs| - 1], name);
      assert objs[|objs| - 1] in objs;
    }
  }

  /** The last writer wins: a node whose objects keep their name is the left-to-right overlay of their
      contributions, whatever other clusters' objects come in between. */
  lemma LastWriterWins(s0: NodeState, objs: seq<Object>, name: string)
    requires s0.cache == map[] && Normal(s0.db) && Clusters(objs)
    requires forall obj | obj in objs && obj.name == name :: NameProperty(obj) == name
    ensures Holds(RunObjects(s0, objs), s0, name, Overlay(objs, name))
  {
    EveryNode(s0, objs, name);
    NodeIsOverlay(objs, name);
  }

  // ----- Either order -----

  predicate Agree(a: Props, b: Props) {
    forall k | k in a && k in b :: a[k] == b[k]
  }

  lemma OverlayCommutes(a: Props, b: Props)
    ensures a + b == b + a <==> Agree(a, b)
  {
    if a + b == b + a {
      forall k | k in a && k in b ensures a[k] == b[k] { assert (a + b)[k] == (b + a)[k]; }
    }
  }

  // No property was read back as a floating-point number.
  predicate NoFloats(props: Props) {
    forall k | k in props :: !props[k].Float?
  }

  lemma {:induction false} ConditionsHaveNoFloats(props: Props, conditions: seq<Condition>)
    requires NoFloats(props)
    ensures NoFloats(WithConditions(props, conditions))
  {
    if conditions != [] { ConditionsHaveNoFloats(props, conditions[..|conditions| - 1]); }
  }

  lemma ContributionHasNoFloats(obj: Object)
    requires IsCluster(obj)
    ensures NoFloats(OwnProperties(obj) + FixedProperties())
  {
    if obj.ManagedCluster? { ConditionsHaveNoFloats(BaseProperties(obj), obj.conditions); }
  }

  /** What is stored tells such properties apart. */
  lemma MarshalIsInjective(a: Props, b: Props)
    requires NoFloats(a) && NoFloats(b) && Marshal(a) == Marshal(b)
    ensures a == b
  {
    assert Marshal(a).Keys == a.Keys && Marshal(b).Keys == b.Keys;
    forall k | k in a ensures k in b && a[k] == b[k] {
      assert k in Marshal(a) && k in Marshal(b);
      assert StoredValue(a[k]) == Marshal(a)[k] == Marshal(b)[k] == StoredValue(b[k]);
    }
  }

  /** Two objects of one cluster give the same node in either order, in the cache and in the table, if and
      only if their contributions agree on the keys they share. */
  lemma EitherOrder(s0: NodeState, a: Object, b: Object)
    requires s0.cache == map[] && Normal(s0.db) && Describes(a) && Describes(b) && a.name == b.name
    ensures var uid := NodeUid(a.name);
      var ab, ba := RunObjects(s0, [a, b]), RunObjects(s0, [b, a]);
      && uid in ab.cache && uid in ba.cache && uid in ab.db.resources && uid in ba.db.resources
      && (ab.cache[uid] == ba.cache[uid] <==> Agree(Contribution(a), Contribution(b)))
      && (ab.db.resources[uid].data == ba.db.resources[uid].data <==> Agree(Contribution(a), Contribution(b)))
  {
    hide Agree, RunObjects, NodeUid;
    AfterTwo(s0, a, b);
    AfterTwo(s0, b, a);
    ContributionHasNoFloats(a);
    ContributionHasNoFloats(b);
    OverlayCommutes(Contribution(a), Contribution(b));
    hide Marshal, OwnProperties, FixedProperties, Contribution, Describes;
    var ab, ba := Contribution(a) + Contribution(b), Contribution(b) + Contribution(a);
    assert NoFloats(ab) && NoFloats(ba);
    if Marshal(ab) == Marshal(ba) { MarshalIsInjective(ab, ba); }
  }

  lemma AfterTwo(s0: NodeState, a: Object, b: Object)
    requires s0.cache == map[] && Normal(s0.db) && Describes(a) && Describes(b) && a.name == b.name
    ensures var s, uid := RunObjects(s0, [a, b]), NodeUid(a.name);
      && uid in s.cache && s.cache[uid] == Contribution(a) + Contribution(b)
      && uid in s.db.resources && s.db.resources[uid].data == Marshal(Contribution(a) + Contribution(b))
  {
    hide Marshal, OwnProperties, FixedProperties, RunObjects, Contribution, NodeUid, Overlay, Normal, NameProperty;
    LastWriterWins(s0, [a, b], a.name);
    OverlayOfTwo(a, b);
  }

  lemma OverlayOfTwo(a: Object, b: Object)
    requires Describes(a) && Describes(b) && a.name == b.name
    ensures Overlay([a, b], a.name) == Some(Contribution(a) + Contribution(b))
  {
    hide Contribution;
    assert [a, b][..1] == [a] && [a][..0] == [];
    assert Overlay([a], a.name) == Some(Contribution(a));
  }

  // The keys that a ManagedClusterInfo contributes, apart from the name.
  predicate InfoKey(k: string) {
    k in {"apiEndpoint", "consoleURL", "nodes", "kind", "apigroup", "kind_plural", "_hubClusterResource"}
  }

  lemma BaseShares(mc: Object, k: string)
    requires mc.ManagedCluster? && InfoKey(k) && k in BaseProperties(mc)
    ensures k == "kind" || k == "apigroup"
  {
  }

  lemma InfoKeys(info: Object, k: string)
    requires info.ManagedClusterInfo? && k in Contribution(info)
    ensures InfoKey(k) || k == "name"
  {
  }

  /** A ManagedCluster and its ManagedClusterInfo agree unless a condition is named like a property of
      the ManagedClusterInfo. */
  lemma ClusterAndInfoAgree(mc: Object, info: Object)
    requires mc.ManagedCluster? && Describes(mc) && info.ManagedClusterInfo? && info.name == mc.name
    requires forall i | 0 <= i < |mc.conditions| :: !InfoKey(mc.conditions[i].kind)
    ensures Agree(Contribution(mc), Contribution(info))
  {
    ConditionsKeepOthers(BaseProperties(mc), mc.conditions);
    forall k | k in Contribution(mc) && k in Contribution(info)
      ensures Contribution(mc)[k] == Contribution(info)[k]
    {
      InfoKeys(info, k);
      SharedKey(mc, info, k);
    }
  }

  lemma SharedKey(mc: Object, info: Object, k: string)
    requires mc.ManagedCluster? && Describes(mc) && info.ManagedClusterInfo? && info.name == mc.name
    requires forall i | 0 <= i < |mc.conditions| :: !InfoKey(mc.conditions[i].kind)
    requires k in Contribution(mc) && k in Contribution(info) && (InfoKey(k) || k == "name")
    ensures Contribution(mc)[k] == Contribution(info)[k]
  {
    if k !in FixedProperties() {
      if k == "name" {
        OwnName(mc);
        OwnName(info);
      } else {
        ConditionsKeepOthers(BaseProperties(mc), mc.conditions);
        BaseShares(mc, k);
      }
    }
  }

  lemma {:induction false} ConditionsKeepOthers(props: Props, conditions: seq<Condition>)
    requires forall i | 0 <= i < |conditions| :: !InfoKey(conditions[i].kind)
    ensures forall k | InfoKey(k) ::
      (k in WithConditions(props, conditions) <==> k in props)
      && (k in props ==> WithConditions(props, conditions)[k] == props[k])
  {
    if conditions != [] { ConditionsKeepOthers(props, conditions[..|conditions| - 1]); }
  }

  // ----- Conditions that rename -----

  lemma {:induction false} Longest(keys: set<string>) returns (n: nat)
    ensures forall k | k in keys :: |k| < n
    decreases keys
  {
    if keys == {} {
      n := 0;
    } else {
      var k :| k in keys;
      n := Longest(keys - {k});
      if n <= |k| { n := |k| + 1; }
      assert forall q | q in keys :: q == k || q in keys - {k};
    }
  }

  lemma FreshKey(keys: set<string>) returns (k: string)
    ensures k !in keys
  {
    var n := Longest(keys);
    k := seq(n, i => 'x');
  }

  /** Whatever the cache holds, the object's properties are laid over those cached for its own node, if and
      only if its name property is its name. */
  lemma MergesItsOwnNodeIffNamed(obj: Object)
    requires IsCluster(obj)
    ensures (forall cache :: Upserted(cache, obj) == Merged(CachedNode(cache, obj.name), OwnProperties(obj)))
      <==> NameProperty(obj) == obj.name
  {
    if NameProperty(obj) != obj.name {
      hide OwnProperties, FixedProperties;
      var k := FreshKey(OwnProperties(obj).Keys + FixedProperties().Keys);
      var cache := map[NodeUid(obj.name) := map[k := Flag(true)]];
      assert NodeUid(NameProperty(obj))[9..] == NameProperty(obj) && NodeUid(obj.name)[9..] == obj.name;
      assert k !in Upserted(cache, obj);
      assert k in Merged(CachedNode(cache, obj.name), OwnProperties(obj));
    }
  }

  /** Whatever the tables and the cache hold, the upserted row keeps rows named after the clusters that own
      them, if and only if its name property is its name. */
  lemma KeepsOwnershipIffNamed(obj: Object)
    requires IsCluster(obj) && SlashFree(obj.name)
    ensures (forall db, cache | Owned(db) :: Owned(Apply(db, NodeStatement(NodeUid(obj.name), Upserted(cache, obj)))))
      <==> NameProperty(obj) == obj.name
  {
    hide Upserted, Marshal;
    if NameProperty(obj) == obj.name {
      forall db, cache | Owned(db) ensures Owned(Apply(db, NodeStatement(NodeUid(obj.name), Upserted(cache, obj)))) {
        OwnedStep(db, NodeStatement(NodeUid(obj.name), Upserted(cache, obj)));
      }
    } else {
      var db, none, uid := Database(map[], map[]), map[], NodeUid(obj.name);
      var after := Apply(db, NodeStatement(uid, Upserted(none, obj)));
      assert after.resources[uid].cluster == NameProperty(obj);
      assert !RowOwned(uid, NameProperty(obj)) by {
        NodeHasNoSlash(obj.name, NameProperty(obj));
        assert NodeUid(NameProperty(obj))[9..] == NameProperty(obj) && uid[9..] == obj.name;
      }
      assert !Owned(after);
    }
  }

  /** A cluster a with the condition name: b is written under its own uid, as a row of cluster b and with the
      properties that are cached for b. */
  lemma RenamedByCondition(mc: Object, key: string, cache: map<string, Props>)
    requires mc.ManagedCluster? && mc.name == "a" && mc.conditions == [Condition("name", "b")]
    requires NodeUid("b") in cache && NodeUid("a") !in cache && key in cache[NodeUid("b")]
    requires key !in OwnProperties(mc) && key !in FixedProperties()
    ensures var t := ObjectStep(NodeState(Database(map[], map[]), cache), mc, Weather(false, true, Taken));
      && NodeUid("a") in t.db.resources
      && t.db.resources[NodeUid("a")].cluster == "b"
      && key in t.db.resources[NodeUid("a")].data
  {
  }
}
